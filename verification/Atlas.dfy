/** The bounded Atlas reachability check: which SRV answers are probed, and how many probes run. */
module Atlas {
  import opened JsonValues
  import opened Strings

  datatype Record = Record(hostname: string, port: int)

  const MAX_RECORDS: nat := 6
  const MAX_ADDRESSES: nat := 2
  const MAX_PROBES: nat := 6

  // --- hostname_matches_suffix ---

  function StripDots(s: string): string {
    if s != "" && s[|s| - 1] == '.' then StripDots(s[..|s| - 1]) else s
  }

  /** A name strictly below the suffix. */
  predicate BelowSuffix(hostname: string, suffix: string) {
    var target, boundary := StripDots(Lower(hostname)), StripDots(Lower(suffix));
    target != "" && boundary != "" && target != boundary && EndsWith(target, "." + boundary)
  }

  function Dots(n: nat): string {
    seq(n, _ => '.')
  }

  predicate EndsInDot(s: string) {
    s != "" && s[|s| - 1] == '.'
  }

  lemma {:induction false} StrippedDots(s: string) returns (n: nat)
    ensures s == StripDots(s) + Dots(n) && !EndsInDot(StripDots(s))
  {
    if EndsInDot(s) {
      var last := |s| - 1;
      var m := StrippedDots(s[..last]);
      n := m + 1;
      assert s == s[..last] + ['.'] && Dots(n) == Dots(m) + ['.'];
    } else {
      n := 0;
    }
  }

  lemma {:induction false} StripAdded(s: string, n: nat)
    requires !EndsInDot(s)
    ensures StripDots(s + Dots(n)) == s
  {
    if n > 0 {
      assert (s + Dots(n))[..|s + Dots(n)| - 1] == s + Dots(n - 1);
      StripAdded(s, n - 1);
    }
  }

  /** In lower case, and but for dots at the end, the suffix is `base`, and the name is anything before a dot
      and `base`. */
  ghost predicate Below(hostname: string, suffix: string, name: string, base: string, m: nat, n: nat) {
    && base != "" && !EndsInDot(base)
    && Lower(suffix) == base + Dots(m) && Lower(hostname) == name + "." + base + Dots(n)
  }

  /** A name is below the suffix exactly when it is one more label, or more, before a dot and the suffix. */
  lemma BelowSuffixExactly(hostname: string, suffix: string)
    ensures BelowSuffix(hostname, suffix) <==>
      exists name: string, base: string, m: nat, n: nat :: Below(hostname, suffix, name, base, m, n)
  {
    var target, base := StripDots(Lower(hostname)), StripDots(Lower(suffix));
    var n := StrippedDots(Lower(hostname));
    var m := StrippedDots(Lower(suffix));
    if BelowSuffix(hostname, suffix) {
      var name := target[..|target| - |base| - 1];
      assert target == name + ("." + base);
      assert Below(hostname, suffix, name, base, m, n);
    }
    forall name: string, b: string, i: nat, j: nat | Below(hostname, suffix, name, b, i, j)
      ensures BelowSuffix(hostname, suffix)
    {
      StripAdded(b, i);
      StripAdded(name + "." + b, j);
      assert (name + "." + b)[|name|..] == "." + b;
    }
  }

  // --- The filter over the SRV answer ---

  predicate Acceptable(r: Record, port: int, suffix: string) {
    r.port == port && BelowSuffix(r.hostname, suffix)
  }

  function Hostnames(records: seq<Record>): set<string> {
    set r | r in records :: r.hostname
  }

  predicate DistinctHosts(records: seq<Record>) {
    forall i, j | 0 <= i < j < |records| :: records[i].hostname != records[j].hostname
  }

  /** The records that are accepted: each acceptable hostname where it first occurs acceptably. */
  function Accepted(records: seq<Record>, port: int, suffix: string): seq<Record> {
    if records == [] then []
    else
      var before, last := Accepted(records[..|records| - 1], port, suffix), records[|records| - 1];
      if Acceptable(last, port, suffix) && last.hostname !in Hostnames(before) then before + [last] else before
  }

  /** Accepted hosts are distinct, on the port and strictly below the suffix; none that qualifies is missed. */
  lemma {:induction false} AcceptedHosts(records: seq<Record>, port: int, suffix: string)
    ensures var r := Accepted(records, port, suffix);
      && DistinctHosts(r)
      && (forall x :: x in r ==> x in records && x.port == port && BelowSuffix(x.hostname, suffix))
      && (forall x :: x in records && x.port == port && BelowSuffix(x.hostname, suffix) ==> x.hostname in Hostnames(r))
  {
    if records != [] {
      var init, last := records[..|records| - 1], records[|records| - 1];
      AcceptedHosts(init, port, suffix);
      HostnamesAppend(Accepted(init, port, suffix), last);
      assert records == init + [last];
    }
  }

  lemma HostnamesAppend(records: seq<Record>, r: Record)
    ensures Hostnames(records + [r]) == Hostnames(records) + {r.hostname}
    ensures DistinctHosts(records) && r.hostname !in Hostnames(records) ==> DistinctHosts(records + [r])
  {
    assert forall k :: 0 <= k < |records| ==> records[k].hostname in Hostnames(records);
  }

  /** Every record is accepted or counted as rejected. */
  method FilterRecords(records: seq<Record>, port: int, suffix: string) returns (accepted: seq<Record>, rejected: nat)
    ensures accepted == Accepted(records, port, suffix) && |accepted| + rejected == |records|
  {
    accepted, rejected := [], 0;
    var seen: set<string> := {};
    var i := 0;
    while i < |records|
      invariant 0 <= i <= |records| && |accepted| + rejected == i
      invariant seen == Hostnames(accepted) && accepted == Accepted(records[..i], port, suffix)
    {
      var record := records[i];
      assert records[..i + 1][..i] == records[..i];
      if record.port != port || !BelowSuffix(record.hostname, suffix) || record.hostname in seen {
        rejected := rejected + 1;
      } else {
        HostnamesAppend(accepted, record);
        seen := seen + {record.hostname};
        accepted := accepted + [record];
      }
      i := i + 1;
    }
    assert records[..i] == records;
  }

  // --- The probes ---

  /** A probe completed TLS, or it reports why not. */
  datatype Probe = Reached | Missed(code: string)

  datatype Resolution = Addresses(list: seq<string>) | Unresolved(code: string)

  datatype Shard = Shard(
    hostname: string, resolved: bool, addresses: seq<string>, probes: seq<Probe>, error: Option<string>)

  datatype Report = Report(
    error: Option<string>, reachable: bool, records: seq<Record>, rejected: nat, truncated: bool, shards: seq<Shard>,
    exhausted: bool)

  /** What the network does: how each shard resolves, when the total time is over, how each probe ends. */
  datatype Network = Network(resolve: nat -> Resolution, late: (nat, nat) -> bool, probe: (nat, nat) -> Probe)

  function First<T>(s: seq<T>, n: nat): (r: seq<T>)
    ensures r <= s && |r| <= n && (|s| <= n ==> r == s) && (|r| < n ==> r == s)
  {
    if |s| > n then s[..n] else s
  }

  function ProbeCount(shards: seq<Shard>): nat {
    if shards == [] then 0 else ProbeCount(shards[..|shards| - 1]) + |shards[|shards| - 1].probes|
  }

  lemma ProbeCountAppend(shards: seq<Shard>, s: Shard)
    ensures ProbeCount(shards + [s]) == ProbeCount(shards) + |s.probes| && ProbeCount([s]) == |s.probes|
  {
    assert [s][..0] == [];
    assert (shards + [s])[..|shards|] == shards;
  }

  /** Shard `i` reports what happened: its resolution, at most two of its addresses, in their order
      the probes that were made of them, none after the time was over, and the code of the last
      probe when none completed TLS. */
  predicate Reports(s: Shard, i: nat, net: Network) {
    match net.resolve(i)
    case Unresolved(code) => s == Shard(s.hostname, false, [], [], Some(code))
    case Addresses(list) =>
      && s.resolved && s.addresses == First(list, 2) && |s.probes| <= |s.addresses|
      && (forall k | 0 <= k < |s.probes| :: s.probes[k] == net.probe(i, k) && !net.late(i, k))
      && (s.probes != [] && Reached !in s.probes ==> s.error == Some(s.probes[|s.probes| - 1].code))
      && (s.probes == [] || Reached in s.probes
         ==> s.error.None? || (s.error == Some(PROBE_TIMEOUT) && net.late(i, |s.probes|)))
  }

  const PROBE_TIMEOUT := "ATLAS_PROBE_TIMEOUT"

  /** Every address that was kept of the shard is probed. */
  predicate Finished(s: Shard) {
    |s.probes| == |s.addresses|
  }

  /** The probes of one shard, until its addresses, the probe budget or the time run out. */
  method ProbeShard(hostname: string, i: nat, net: Network, used: nat) returns (shard: Shard, exhausted: bool)
    requires used <= MAX_PROBES && net.resolve(i).Addresses?
    ensures shard.hostname == hostname && Reports(shard, i, net) && used + |shard.probes| <= MAX_PROBES
    ensures exhausted <==> !Finished(shard)
    ensures exhausted ==> used + |shard.probes| == MAX_PROBES || net.late(i, |shard.probes|)
  {
    var tried := First(net.resolve(i).list, MAX_ADDRESSES);
    var probes: seq<Probe> := [];
    var error := None;
    exhausted := false;
    while |probes| < |tried| && !exhausted
      invariant |probes| <= |tried| && used + |probes| <= MAX_PROBES
      invariant forall k :: 0 <= k < |probes| ==> probes[k] == net.probe(i, k) && !net.late(i, k)
      invariant exhausted ==> |probes| < |tried| && (used + |probes| == MAX_PROBES || net.late(i, |probes|))
      invariant error.None? || (error == Some(PROBE_TIMEOUT) && net.late(i, |probes|) && exhausted)
      decreases |tried| - |probes|, !exhausted
    {
      if used + |probes| >= MAX_PROBES {
        exhausted := true;
      } else if net.late(i, |probes|) {
        exhausted, error := true, Some(PROBE_TIMEOUT);
      } else {
        probes := probes + [net.probe(i, |probes|)];
      }
    }
    if probes != [] && Reached !in probes { error := Some(probes[|probes| - 1].code); }
    shard := Shard(hostname, true, tried, probes, error);
  }

  /** The shards report what happened to the first records, in their order. */
  ghost predicate InOrder(shards: seq<Shard>, records: seq<Record>, net: Network) {
    |shards| <= |records| && forall i :: 0 <= i < |shards| ==>
      shards[i].hostname == records[i].hostname && Reports(shards[i], i, net)
  }

  /** The shards report what happened, within the probe budget.
      Only the last one may be unfinished, and then the budget was spent or the time was over. */
  ghost predicate Follows(shards: seq<Shard>, records: seq<Record>, net: Network, exhausted: bool) {
    && InOrder(shards, records, net) && ProbeCount(shards) <= 6
    && (forall i :: 0 <= i < |shards| && !Finished(shards[i]) ==> exhausted && i == |shards| - 1)
    && (exhausted ==>
        && shards != [] && !Finished(shards[|shards| - 1])
        && (ProbeCount(shards) == 6 || net.late(|shards| - 1, |shards[|shards| - 1].probes|)))
  }

  method ProbeShards(candidates: seq<Record>, net: Network) returns (shards: seq<Shard>, exhausted: bool)
    ensures Follows(shards, candidates, net, exhausted) && (!exhausted ==> |shards| == |candidates|)
  {
    shards, exhausted := [], false;
    while |shards| < |candidates| && !exhausted
      invariant Follows(shards, candidates, net, exhausted)
      decreases |candidates| - |shards|
    {
      var n: nat := |shards|;
      var hostname := candidates[n].hostname;
      var resolution := net.resolve(n);
      var shard;
      if resolution.Unresolved? {
        shard := Shard(hostname, false, [], [], Some(resolution.code));
      } else {
        shard, exhausted := ProbeShard(hostname, n, net, ProbeCount(shards));
      }
      FollowsAppend(shards, shard, candidates, net, exhausted);
      shards := shards + [shard];
    }
  }

  lemma FollowsAppend(shards: seq<Shard>, s: Shard, records: seq<Record>, net: Network, exhausted: bool)
    requires Follows(shards, records, net, false) && |shards| < |records|
    requires s.hostname == records[|shards|].hostname && Reports(s, |shards|, net)
    requires ProbeCount(shards) + |s.probes| <= MAX_PROBES && (exhausted <==> !Finished(s))
    requires exhausted ==> ProbeCount(shards) + |s.probes| == MAX_PROBES || net.late(|shards|, |s.probes|)
    ensures Follows(shards + [s], records, net, exhausted)
  {
    ProbeCountAppend(shards, s);
    ReportsAppend(shards, s, records, net);
    assert forall i :: 0 <= i < |shards| ==> (shards + [s])[i] == shards[i] && Finished(shards[i]);
  }

  lemma ReportsAppend(shards: seq<Shard>, s: Shard, records: seq<Record>, net: Network)
    requires InOrder(shards, records, net) && |shards| < |records|
    requires s.hostname == records[|shards|].hostname && Reports(s, |shards|, net)
    ensures InOrder(shards + [s], records, net)
  {
    var after := shards + [s];
    forall i | 0 <= i < |after| ensures after[i].hostname == records[i].hostname && Reports(after[i], i, net) {
      if i < |shards| { assert after[i] == shards[i]; }
    }
  }

  predicate AnyReached(shards: seq<Shard>) {
    exists s | s in shards :: Reached in s.probes
  }

  /** Probe `k` of shard `i` was made, and completed TLS. */
  predicate CompletedTls(shards: seq<Shard>, net: Network, i: nat, k: nat) {
    i < |shards| && k < |shards[i].probes| && net.probe(i, k).Reached?
  }

  lemma ReachedIsCompleted(shards: seq<Shard>, records: seq<Record>, net: Network, exhausted: bool)
    requires Follows(shards, records, net, exhausted)
    ensures AnyReached(shards) <==> exists i: nat, k: nat :: CompletedTls(shards, net, i, k)
  {
    if AnyReached(shards) {
      var s :| s in shards && Reached in s.probes;
      var i: nat :| i < |shards| && shards[i] == s;
      var k: nat :| k < |s.probes| && s.probes[k] == Reached;
      assert Reports(shards[i], i, net);
      assert CompletedTls(shards, net, i, k);
    }
    if i: nat, k: nat :| CompletedTls(shards, net, i, k) {
      assert Reports(shards[i], i, net);
      assert shards[i].probes[k] == Reached && shards[i] in shards;
    }
  }

  /** The whole check, over any answer of the resolver and any behaviour of the network. Its error
      is absent exactly when some probe that was made completed TLS. */
  method CheckConnectivity(answer: Option<seq<Record>>, failure: string, port: int, suffix: string, net: Network)
    returns (r: Report)
    ensures answer.None? ==> r == Report(Some(failure), false, [], 0, false, [], false)
    ensures answer.Some? ==>
      var accepted := Accepted(answer.value, port, suffix);
      && |accepted| + r.rejected == |answer.value| && (r.truncated <==> |accepted| > 6)
      && r.records == First(accepted, 6) && (!r.exhausted ==> |r.shards| == |r.records|)
    ensures Follows(r.shards, r.records, net, r.exhausted)
    ensures r.error.None? <==> exists i: nat, k: nat :: CompletedTls(r.shards, net, i, k)
    ensures r.reachable <==> r.error.None?
    ensures answer.Some? && r.records == [] ==> r.error == Some("ATLAS_NO_ALLOWED_SRV_TARGETS")
    ensures r.records != [] && r.error.Some? ==> r.error.value == if r.exhausted then PROBE_TIMEOUT
      else "ATLAS_TLS_UNREACHABLE"
  {
    if answer.None? {
      return Report(Some(failure), false, [], 0, false, [], false);
    }
    var accepted, rejected := FilterRecords(answer.value, port, suffix);
    var candidates := First(accepted, MAX_RECORDS);
    if candidates == [] {
      return Report(Some("ATLAS_NO_ALLOWED_SRV_TARGETS"), false, [], rejected, false, [], false);
    }
    var shards, exhausted := ProbeShards(candidates, net);
    ReachedIsCompleted(shards, candidates, net, exhausted);
    var reachable := AnyReached(shards);
    r := Report(if reachable then None else Some(if exhausted then PROBE_TIMEOUT else "ATLAS_TLS_UNREACHABLE"),
                reachable, candidates, rejected, |accepted| > MAX_RECORDS, shards, exhausted);
  }
}
