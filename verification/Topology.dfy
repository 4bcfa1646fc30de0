/** The administrator's dependency graph and the walks over it. The graph may have cycles. */
module Topology {
  import opened JsonValues
  import opened Strings

  datatype Check = Check(tool: string, arguments: Json, expected: seq<Field>)

  datatype Profile = Profile(dependsOn: seq<string>, checks: seq<Check>, containers: seq<string>, units: seq<string>)

  type Services = map<string, Profile>

  function Deps(t: Services, name: string): seq<string> {
    if name in t then t[name].dependsOn else []
  }

  /** Every configured name, and every name that some service refers to. */
  function Nodes(t: Services): set<string> {
    t.Keys + set n, d | n in t.Keys && d in t[n].dependsOn :: d
  }

  lemma DepsAreNodes(t: Services, name: string)
    ensures forall d :: d in Deps(t, name) ==> d in Nodes(t)
  {
  }

  /** load_topology refuses a reference to a service that is not configured. */
  predicate Closed(t: Services) {
    forall n, d | n in t.Keys && d in t[n].dependsOn :: d in t
  }

  // --- Reachability ---

  ghost predicate Path(t: Services, p: seq<string>) {
    p != [] && forall i :: 0 <= i < |p| - 1 ==> p[i + 1] in Deps(t, p[i])
  }

  ghost predicate Reaches(t: Services, a: string, b: string) {
    exists p :: Path(t, p) && p[0] == a && p[|p| - 1] == b
  }

  /** Each name of the path is configured, but for the last, and lists the next one as a dependency. */
  ghost predicate Leads(t: Services, p: seq<string>) {
    p != [] && forall i :: 0 <= i < |p| - 1 ==> p[i] in t && p[i + 1] in t[p[i]].dependsOn
  }

  /** Reachable is what a path of configured dependencies leads to. */
  lemma ReachesExactly(t: Services, a: string, b: string)
    ensures Reaches(t, a, b) <==> exists p :: Leads(t, p) && p[0] == a && p[|p| - 1] == b
  {
    forall p: seq<string> ensures Path(t, p) <==> Leads(t, p) { PathLeads(t, p); }
  }

  lemma PathLeads(t: Services, p: seq<string>)
    ensures Path(t, p) <==> Leads(t, p)
  {
    if Path(t, p) {
      forall i | 0 <= i < |p| - 1 ensures p[i] in t && p[i + 1] in t[p[i]].dependsOn {
        assert p[i + 1] in Deps(t, p[i]);
      }
    }
    if Leads(t, p) {
      forall i | 0 <= i < |p| - 1 ensures p[i + 1] in Deps(t, p[i]) { assert p[i] in t; }
    }
  }

  /** Along at least one dependency. */
  ghost predicate ReachesFurther(t: Services, a: string, b: string) {
    exists p :: Path(t, p) && |p| >= 2 && p[0] == a && p[|p| - 1] == b
  }

  ghost predicate Acyclic(t: Services) {
    forall n :: !ReachesFurther(t, n, n)
  }

  lemma ReachesSelf(t: Services, a: string)
    ensures Reaches(t, a, a)
  {
    assert Path(t, [a]);
  }

  lemma ReachesStep(t: Services, a: string, b: string, d: string)
    requires Reaches(t, a, b) && d in Deps(t, b)
    ensures ReachesFurther(t, a, d) && Reaches(t, a, d)
  {
    var p :| Path(t, p) && p[0] == a && p[|p| - 1] == b;
    assert Path(t, p + [d]) && (p + [d])[|p|] == d;
  }

  lemma ReachesFirst(t: Services, a: string, d: string, b: string)
    requires d in Deps(t, a) && Reaches(t, d, b)
    ensures Reaches(t, a, b)
  {
    var p :| Path(t, p) && p[0] == d && p[|p| - 1] == b;
    var q := [a] + p;
    assert forall i :: 0 < i < |q| ==> q[i] == p[i - 1];
    assert Path(t, q);
  }

  lemma FurtherIsReach(t: Services, a: string, b: string)
    requires ReachesFurther(t, a, b)
    ensures Reaches(t, a, b)
  {
  }

  // --- The walk of verification_checks: a service is visited before its dependencies and its checks
  //     are appended after theirs ---

  /** The names visited so far, and those whose checks are already appended, in that order. */
  datatype Walk = Walk(visited: set<string>, order: seq<string>)

  function Visit(t: Services, name: string, w: Walk): (r: Walk)
    requires name in Nodes(t) && w.visited <= Nodes(t)
    ensures w.visited <= r.visited <= Nodes(t) && name in r.visited
    decreases Nodes(t) - w.visited, 0
  {
    if name in w.visited then w
    else
      DepsAreNodes(t, name);
      var inner := VisitAll(t, Deps(t, name), w.(visited := w.visited + {name}));
      inner.(order := inner.order + [name])
  }

  function VisitAll(t: Services, names: seq<string>, w: Walk): (r: Walk)
    requires (forall n :: n in names ==> n in Nodes(t)) && w.visited <= Nodes(t)
    ensures w.visited <= r.visited <= Nodes(t) && forall n :: n in names ==> n in r.visited
    decreases Nodes(t) - w.visited, 1 + |names|
  {
    if names == [] then w else VisitAll(t, names[1..], Visit(t, names[0], w))
  }

  function Elements(s: seq<string>): set<string> {
    set x | x in s
  }

  lemma ElementsAppend(s: seq<string>, x: string)
    ensures Elements(s + [x]) == Elements(s) + {x}
  {
  }

  /** What one visit adds: it appends exactly the newly visited names, each once, all of them
      reachable, and it leaves no dependency of theirs unvisited. */
  ghost predicate Adds(t: Services, roots: seq<string>, w: Walk, r: Walk) {
    && w.visited <= r.visited && w.order <= r.order
    && (Distinct(w.order) && Elements(w.order) <= w.visited ==> Distinct(r.order) && Elements(r.order) <= r.visited)
    && (forall x :: x in r.visited && x !in w.visited ==> x in r.order)
    && (forall x :: x in r.order && x !in w.order ==> x !in w.visited)
    && (forall x :: x in r.visited && x !in w.visited ==> exists n :: n in roots && Reaches(t, n, x))
    && (forall x, d :: x in r.visited && x !in w.visited && d in Deps(t, x) ==> d in r.visited)
  }

  lemma {:induction false} VisitAdds(t: Services, name: string, w: Walk)
    requires name in Nodes(t) && w.visited <= Nodes(t)
    ensures Adds(t, [name], w, Visit(t, name, w))
    decreases Nodes(t) - w.visited, 0
  {
    ReachesSelf(t, name);
    if name !in w.visited {
      DepsAreNodes(t, name);
      var w' := w.(visited := w.visited + {name});
      var inner := VisitAll(t, Deps(t, name), w');
      var r := Visit(t, name, w);
      VisitAllAdds(t, Deps(t, name), w');
      forall x | x in r.visited && x !in w.visited ensures x in r.order && Reaches(t, name, x) {
        if x != name {
          var d :| d in Deps(t, name) && Reaches(t, d, x);
          ReachesFirst(t, name, d, x);
        }
      }
      assert name in [name];
    }
  }

  lemma {:induction false} VisitAllAdds(t: Services, names: seq<string>, w: Walk)
    requires (forall n :: n in names ==> n in Nodes(t)) && w.visited <= Nodes(t)
    ensures Adds(t, names, w, VisitAll(t, names, w))
    decreases Nodes(t) - w.visited, 1 + |names|
  {
    if names != [] {
      var mid := Visit(t, names[0], w);
      var r := VisitAll(t, names[1..], mid);
      VisitAdds(t, names[0], w);
      VisitAllAdds(t, names[1..], mid);
      forall x | x in r.visited && x !in w.visited ensures exists n :: n in names && Reaches(t, n, x) {
        if x in mid.visited {
          var n :| n in [names[0]] && Reaches(t, n, x);
        } else {
          var n :| n in names[1..] && Reaches(t, n, x);
        }
      }
    }
  }

  function Start(): Walk {
    Walk({}, [])
  }

  /** A set that is closed under dependencies holds everything reachable from its members. */
  lemma {:induction false} ClosedHoldsReachable(t: Services, s: set<string>, p: seq<string>)
    requires Path(t, p) && p[0] in s && forall x, d :: x in s && d in Deps(t, x) ==> d in s
    ensures p[|p| - 1] in s
    decreases |p|
  {
    if |p| > 1 {
      assert p[1] in Deps(t, p[0]);
      ClosedHoldsReachable(t, s, p[1..]);
    }
  }

  /** The walk visits exactly what is reachable, and appends each service once. */
  lemma VisitIsReachable(t: Services, name: string)
    requires name in Nodes(t)
    ensures var r := Visit(t, name, Start());
      (forall x :: x in r.visited <==> Reaches(t, name, x)) && Elements(r.order) == r.visited && Distinct(r.order)
  {
    var r := Visit(t, name, Start());
    VisitAdds(t, name, Start());
    forall x ensures x in r.visited <==> Reaches(t, name, x) {
      if Reaches(t, name, x) {
        var p :| Path(t, p) && p[0] == name && p[|p| - 1] == x;
        ClosedHoldsReachable(t, r.visited, p);
      }
    }
  }

  // --- In an acyclic graph dependencies come first ---

  ghost predicate DependenciesFirst(t: Services, order: seq<string>) {
    forall i, d :: 0 <= i < |order| && d in Deps(t, order[i]) ==> d in order[..i]
  }

  /** The visited services that are still open: each waits for what it depends on. */
  ghost predicate OpenAbove(t: Services, w: Walk, name: string) {
    forall g :: g in w.visited && g !in w.order ==> ReachesFurther(t, g, name)
  }

  lemma {:induction false} VisitOrders(t: Services, name: string, w: Walk)
    requires name in Nodes(t) && w.visited <= Nodes(t) && Acyclic(t)
    requires DependenciesFirst(t, w.order) && OpenAbove(t, w, name)
    ensures var r := Visit(t, name, w);
      DependenciesFirst(t, r.order) && forall g :: g in r.visited && g !in r.order ==> g in w.visited && g !in w.order
    decreases Nodes(t) - w.visited, 0
  {
    if name !in w.visited {
      DepsAreNodes(t, name);
      var w' := w.(visited := w.visited + {name});
      ReachesSelf(t, name);
      forall d, g | d in Deps(t, name) && g in w'.visited && g !in w'.order ensures ReachesFurther(t, g, d) {
        if g != name { FurtherIsReach(t, g, name); }
        ReachesStep(t, g, name, d);
      }
      VisitAllOrders(t, Deps(t, name), w');
      VisitAllAdds(t, Deps(t, name), w');
      var inner := VisitAll(t, Deps(t, name), w');
      var r := Visit(t, name, w);
      // a dependency that were still open would reach itself
      forall d | d in Deps(t, name) && d in w'.visited ensures d in w'.order {
        assert OpenAbove(t, w', d) && !ReachesFurther(t, d, d);
      }
      assert forall d | d in Deps(t, name) :: d in inner.order;
      assert r.order[..|inner.order|] == inner.order;
      forall i, d | 0 <= i < |r.order| && d in Deps(t, r.order[i]) ensures d in r.order[..i] {
        if i < |inner.order| { assert r.order[..i] == inner.order[..i]; }
      }
    }
  }

  lemma {:induction false} VisitAllOrders(t: Services, names: seq<string>, w: Walk)
    requires (forall n :: n in names ==> n in Nodes(t)) && w.visited <= Nodes(t) && Acyclic(t)
    requires DependenciesFirst(t, w.order) && forall n :: n in names ==> OpenAbove(t, w, n)
    ensures var r := VisitAll(t, names, w);
      DependenciesFirst(t, r.order) && forall g :: g in r.visited && g !in r.order ==> g in w.visited && g !in w.order
    decreases Nodes(t) - w.visited, 1 + |names|
  {
    if names != [] {
      VisitOrders(t, names[0], w);
      VisitAdds(t, names[0], w);
      var mid := Visit(t, names[0], w);
      forall n | n in names[1..] ensures n in names && OpenAbove(t, mid, n) {
        assert OpenAbove(t, w, n);
      }
      VisitAllOrders(t, names[1..], mid);
    }
  }

  /** Without cycles, every service is appended after all its dependencies. */
  lemma DependenciesComeFirst(t: Services, name: string)
    requires name in Nodes(t) && Acyclic(t)
    ensures DependenciesFirst(t, Visit(t, name, Start()).order)
  {
    VisitOrders(t, name, Start());
  }

  // --- profile_targets: names that are not configured are skipped ---

  function TargetsOf(t: Services, names: set<string>): set<string> {
    set n, x | n in names && n in t && x in t[n].containers + t[n].units :: x
  }

  lemma TargetsOfOneMore(t: Services, names: set<string>, n: string)
    requires n in t
    ensures TargetsOf(t, names + {n}) == TargetsOf(t, names) + (set x | x in t[n].containers)
      + (set x | x in t[n].units)
  {
    forall x | x in t[n].containers + t[n].units ensures x in TargetsOf(t, names + {n}) {
      assert n in names + {n};
    }
  }

  function ProfileTargets(t: Services, service: string): (r: set<string>)
    ensures service in t ==> forall x :: x in r <==>
      exists n :: n in t && Reaches(t, service, n) && x in t[n].containers + t[n].units
    ensures service !in t ==> r == {}
  {
    if service in t then
      VisitIsReachable(t, service);
      TargetsOf(t, Visit(t, service, Start()).visited)
    else {}
  }

  class TargetWalk {
    const services: Services
    var found: set<string>
    var visited: set<string>

    constructor (services: Services)
      ensures this.services == services && found == {} && visited == {}
    {
      this.services := services;
      found, visited := {}, {};
    }

    /** Follows the walk of verification_checks, but never enters a name that is not configured. */
    method Enter(name: string, ghost w: Walk)
      requires name in Nodes(services) && w.visited <= Nodes(services)
      requires visited == w.visited * services.Keys && found == TargetsOf(services, visited)
      modifies this
      ensures visited == Visit(services, name, w).visited * services.Keys
      ensures found == TargetsOf(services, visited)
      decreases Nodes(services) - w.visited, 0
    {
      if name in visited || name !in services {
        return;
      }
      visited := visited + {name};
      found := found + (set x | x in services[name].containers) + (set x | x in services[name].units);
      TargetsOfOneMore(services, visited - {name}, name);
      assert visited - {name} == w.visited * services.Keys;
      DepsAreNodes(services, name);
      ghost var v := w.(visited := w.visited + {name});
      ghost var deps := services[name].dependsOn;
      var i := 0;
      while i < |services[name].dependsOn|
        invariant 0 <= i <= |deps| && w.visited + {name} <= v.visited <= Nodes(services)
        invariant visited == v.visited * services.Keys && found == TargetsOf(services, visited)
        invariant VisitAll(services, deps[i..], v) == VisitAll(services, deps, w.(visited := w.visited + {name}))
      {
        assert deps[i..][0] == deps[i] && deps[i..][1..] == deps[i + 1..];
        Enter(services[name].dependsOn[i], v);
        v := Visit(services, deps[i], v);
        i := i + 1;
      }
    }
  }

  method CollectTargets(services: Services, service: string) returns (r: set<string>)
    ensures r == ProfileTargets(services, service)
  {
    if service !in services {
      return {};
    }
    var walk := new TargetWalk(services);
    walk.Enter(service, Start());
    r := walk.found;
    assert TargetsOf(services, walk.visited) == TargetsOf(services, Visit(services, service, Start()).visited);
  }

  // --- check_application_health: a service is listed before its dependencies ---

  function Preorder(t: Services, name: string, names: seq<string>): (r: seq<string>)
    requires name in Nodes(t) && Elements(names) <= Nodes(t)
    ensures names <= r && Elements(r) <= Nodes(t) && name in r
    decreases Nodes(t) - Elements(names), 0
  {
    if name in names then names
    else
      DepsAreNodes(t, name);
      ElementsAppend(names, name);
      PreorderAll(t, Deps(t, name), names + [name])
  }

  function PreorderAll(t: Services, pending: seq<string>, names: seq<string>): (r: seq<string>)
    requires (forall n :: n in pending ==> n in Nodes(t)) && Elements(names) <= Nodes(t)
    ensures names <= r && Elements(r) <= Nodes(t)
    decreases Nodes(t) - Elements(names), 1 + |pending|
  {
    if pending == [] then names
    else
      var first := Preorder(t, pending[0], names);
      assert Elements(names) <= Elements(first);
      PreorderAll(t, pending[1..], first)
  }

  /** The two walks visit the same services, whatever the order. */
  lemma {:induction false} PreorderVisitsSame(t: Services, name: string, names: seq<string>, w: Walk)
    requires name in Nodes(t) && w.visited == Elements(names) && Elements(names) <= Nodes(t)
    ensures Elements(Preorder(t, name, names)) == Visit(t, name, w).visited
    ensures Distinct(names) ==> Distinct(Preorder(t, name, names))
    decreases Nodes(t) - Elements(names), 0
  {
    if name !in names {
      DepsAreNodes(t, name);
      ElementsAppend(names, name);
      PreorderAllVisitsSame(t, Deps(t, name), names + [name], w.(visited := w.visited + {name}));
    }
  }

  lemma {:induction false} PreorderAllVisitsSame(t: Services, pending: seq<string>, names: seq<string>, w: Walk)
    requires (forall n :: n in pending ==> n in Nodes(t))
    requires w.visited == Elements(names) && Elements(names) <= Nodes(t)
    ensures Elements(PreorderAll(t, pending, names)) == VisitAll(t, pending, w).visited
    ensures Distinct(names) ==> Distinct(PreorderAll(t, pending, names))
    decreases Nodes(t) - Elements(names), 1 + |pending|
  {
    if pending != [] {
      PreorderVisitsSame(t, pending[0], names, w);
      PreorderAllVisitsSame(t, pending[1..], Preorder(t, pending[0], names), Visit(t, pending[0], w));
    }
  }

  /** With every reference configured, recovery checks, autonomous targets and application health
      all cover one set of services: those reachable from the given one. */
  lemma AllWalksCoverTheSameServices(t: Services, service: string)
    requires Closed(t) && service in t
    ensures Elements(Preorder(t, service, [])) == Visit(t, service, Start()).visited
    ensures Visit(t, service, Start()).visited <= t.Keys
    ensures ProfileTargets(t, service) == TargetsOf(t, Elements(Preorder(t, service, [])))
    ensures Distinct(Preorder(t, service, []))
  {
    PreorderVisitsSame(t, service, [], Start());
    assert forall n | n in Nodes(t) :: n in t;
  }

  class NameWalk {
    const services: Services
    var names: seq<string>

    constructor (services: Services)
      ensures this.services == services && names == []
    {
      this.services := services;
      names := [];
    }

    method Enter(name: string)
      requires Closed(services) && name in services && Elements(names) <= services.Keys <= Nodes(services)
      modifies this
      ensures names == Preorder(services, name, old(names)) && Elements(names) <= services.Keys
      decreases Nodes(services) - Elements(names), 0
    {
      if name in names {
        return;
      }
      ghost var before := names;
      names := names + [name];
      ElementsAppend(before, name);
      DepsAreNodes(services, name);
      ghost var deps := services[name].dependsOn;
      var i := 0;
      while i < |services[name].dependsOn|
        invariant 0 <= i <= |deps|
        invariant before + [name] <= names && Elements(names) <= services.Keys
        invariant PreorderAll(services, deps[i..], names) == PreorderAll(services, deps, before + [name])
      {
        assert deps[i..][0] == deps[i] && deps[i..][1..] == deps[i + 1..];
        assert Elements(before + [name]) <= Elements(names);
        Enter(services[name].dependsOn[i]);
        i := i + 1;
      }
    }
  }
}
