/** The blast radius of a service (correlate/prometheus.py: the reverse edges of
    `load_dependency_graph`, and `blast_radius_services`). */
module BlastRadius {

  datatype Service = Service(dependencies: seq<string>, dependents: seq<string>)

  type Graph = map<string, Service>

  function Dependents(g: Graph, s: string): seq<string> { if s in g then g[s].dependents else [] }

  function Dependencies(g: Graph, s: string): seq<string> { if s in g then g[s].dependencies else [] }

  /** `path` leads from `a` to `b` along dependents. */
  predicate IsPath(g: Graph, path: seq<string>, a: string, b: string) {
    && |path| > 0 && path[0] == a && path[|path| - 1] == b
    && forall i :: 0 <= i < |path| - 1 ==> path[i] in g && path[i + 1] in g[path[i]].dependents
  }

  ghost predicate Reaches(g: Graph, a: string, b: string) { exists path :: IsPath(g, path, a, b) }

  /** Every name the walk can meet. */
  function Names(g: Graph): set<string> { set s, d | s in g && d in g[s].dependents :: d }

  /** Every dependent of an affected service is affected or waits to be visited. */
  ghost predicate Frontier(g: Graph, affected: set<string>, toVisit: seq<string>) {
    forall s, d :: s in affected && d in Dependents(g, s) ==> d in affected || d in toVisit
  }

  ghost predicate AllReached(g: Graph, trigger: string, names: set<string>) {
    forall s :: s in names ==> Reaches(g, trigger, s)
  }

  function Members(names: seq<string>): set<string> { set s | s in names }

  method BlastRadiusServices(trigger: string, g: Graph) returns (affected: set<string>)
    ensures forall s :: s in affected <==> Reaches(g, trigger, s) || (trigger in g && s in g[trigger].dependencies)
  {
    affected := Walk(trigger, g);
    ghost var reached := affected;
    var dependencies := Dependencies(g, trigger);
    for i := 0 to |dependencies|
      invariant affected == reached + set d | d in dependencies[..i]
    {
      assert dependencies[..i + 1] == dependencies[..i] + [dependencies[i]];
      affected := affected + {dependencies[i]};
    }
    assert dependencies[..|dependencies|] == dependencies;
  }

  /** The walk over dependents: finishes on every finite graph, cycles and duplicate edges
      included. */
  method Walk(trigger: string, g: Graph) returns (affected: set<string>)
    ensures forall s :: s in affected <==> Reaches(g, trigger, s)
  {
    hide Frontier, AllReached, Reaches, Names;
    affected := {trigger};
    var toVisit := Dependents(g, trigger);
    WalkStarts(g, trigger);
    while toVisit != []
      invariant trigger in affected && Members(toVisit) <= Names(g)
      invariant AllReached(g, trigger, affected + Members(toVisit)) && Frontier(g, affected, toVisit)
      decreases |Names(g) - affected|, |toVisit|
    {
      var svc, rest := toVisit[0], toVisit[1..];
      assert toVisit == [svc] + rest && svc in Members(toVisit);
      if svc !in affected {
        Shrinks(Names(g), affected, svc);
        WalkVisits(g, trigger, affected, toVisit);
        affected := affected + {svc};
        toVisit := rest + Dependents(g, svc);
      } else {
        WalkSkips(g, trigger, affected, toVisit);
        toVisit := rest;
      }
    }
    WalkEnds(g, trigger, affected);
  }

  lemma WalkStarts(g: Graph, trigger: string)
    ensures Members(Dependents(g, trigger)) <= Names(g) && Frontier(g, {trigger}, Dependents(g, trigger))
    ensures AllReached(g, trigger, {trigger} + Members(Dependents(g, trigger)))
  {
    TriggerReachesItself(g, trigger);
    Extend(g, trigger, trigger);
  }

  lemma WalkVisits(g: Graph, trigger: string, affected: set<string>, toVisit: seq<string>)
    requires toVisit != [] && Members(toVisit) <= Names(g) && Frontier(g, affected, toVisit)
    requires AllReached(g, trigger, affected + Members(toVisit))
    ensures var svc, next := toVisit[0], toVisit[1..] + Dependents(g, toVisit[0]);
            && Members(next) <= Names(g) && Frontier(g, affected + {svc}, next)
            && AllReached(g, trigger, affected + {svc} + Members(next))
  {
    var svc, rest := toVisit[0], toVisit[1..];
    assert toVisit == [svc] + rest && svc in Members(toVisit);
    Extend(g, trigger, svc);
  }

  lemma WalkSkips(g: Graph, trigger: string, affected: set<string>, toVisit: seq<string>)
    requires toVisit != [] && toVisit[0] in affected && Frontier(g, affected, toVisit)
    requires AllReached(g, trigger, affected + Members(toVisit))
    ensures Members(toVisit[1..]) <= Members(toVisit) && Frontier(g, affected, toVisit[1..])
    ensures AllReached(g, trigger, affected + Members(toVisit[1..]))
  {
    assert toVisit == [toVisit[0]] + toVisit[1..];
  }

  lemma WalkEnds(g: Graph, trigger: string, affected: set<string>)
    requires trigger in affected && Frontier(g, affected, []) && AllReached(g, trigger, affected + Members([]))
    ensures forall s :: s in affected <==> Reaches(g, trigger, s)
  {
    assert affected + Members([]) == affected;
    forall s | Reaches(g, trigger, s)
      ensures s in affected
    {
      var path :| IsPath(g, path, trigger, s);
      ClosedContainsPath(g, affected, path, |path| - 1);
    }
  }

  lemma TriggerReachesItself(g: Graph, s: string)
    ensures Reaches(g, s, s)
  {
    assert IsPath(g, [s], s, s);
  }

  /** What a reached service leads to is reached. */
  lemma Extend(g: Graph, a: string, b: string)
    requires Reaches(g, a, b)
    ensures forall c :: c in Dependents(g, b) ==> Reaches(g, a, c) && c in Names(g)
  {
    var path :| IsPath(g, path, a, b);
    forall c | c in Dependents(g, b)
      ensures Reaches(g, a, c)
    {
      assert IsPath(g, path + [c], a, c);
    }
  }

  lemma Shrinks(names: set<string>, affected: set<string>, s: string)
    requires s in names && s !in affected
    ensures |names - (affected + {s})| < |names - affected|
  {
    assert names - affected == (names - (affected + {s})) + {s};
  }

  /** A set closed under dependents contains every path that starts in it. */
  lemma {:induction false} ClosedContainsPath(g: Graph, closed: set<string>, path: seq<string>, i: nat)
    requires |path| > 0 && path[0] in closed && i < |path| && IsPath(g, path, path[0], path[|path| - 1])
    requires forall s, d :: s in closed && d in Dependents(g, s) ==> d in closed
    ensures path[i] in closed
  {
    if i > 0 {
      ClosedContainsPath(g, closed, path, i - 1);
      assert path[i - 1 + 1] in Dependents(g, path[i - 1]);
    }
  }

  // ---------- reverse edges ----------

  /** How often `s` names `d` among its dependencies. */
  function Uses(deps: map<string, seq<string>>, s: string, d: string): nat {
    if s in deps then multiset(deps[s])[d] else 0
  }

  /** The graph with the reverse edges of the services in `done`, each edge once. */
  ghost predicate Reversed(deps: map<string, seq<string>>, g: Graph, done: set<string>) {
    && g.Keys == deps.Keys
    && (forall s :: s in g ==> g[s].dependencies == deps[s])
    && (forall d, s :: d in g ==> Edges(g, d, s) == if s in done then Uses(deps, s, d) else 0)
  }

  /** How often `s` is listed as a dependent of `d`. */
  function Edges(g: Graph, d: string, s: string): nat
    requires d in g
  {
    multiset(g[d].dependents)[s]
  }

  method AddReverseEdges(deps: map<string, seq<string>>) returns (g: Graph)
    ensures Reversed(deps, g, deps.Keys)
  {
    g := map s | s in deps :: Service(deps[s], []);
    var todo := deps.Keys;
    while todo != {}
      invariant todo <= deps.Keys && Reversed(deps, g, deps.Keys - todo)
    {
      var svc :| svc in todo;
      ghost var before := g;
      g := AddEdgesOf(g, svc);
      assert Reversed(deps, g, deps.Keys - (todo - {svc})) by {
        forall d, s | d in g
          ensures Edges(g, d, s) == if s in deps.Keys - (todo - {svc}) then Uses(deps, s, d) else 0
        {
          assert Edges(before, d, s) == if s in deps.Keys - todo then Uses(deps, s, d) else 0;
        }
      }
      todo := todo - {svc};
    }
    assert deps.Keys - todo == deps.Keys;
  }

  method AddEdgesOf(g0: Graph, svc: string) returns (g: Graph)
    requires svc in g0
    ensures g.Keys == g0.Keys && forall s :: s in g ==> g[s].dependencies == g0[s].dependencies
    ensures forall d, s :: d in g ==>
              Edges(g, d, s) == Edges(g0, d, s) + if s == svc then multiset(g0[svc].dependencies)[d] else 0
  {
    g := g0;
    var edges := g0[svc].dependencies;
    for i := 0 to |edges|
      invariant g.Keys == g0.Keys && forall s :: s in g ==> g[s].dependencies == g0[s].dependencies
      invariant forall d, s :: d in g ==>
                  Edges(g, d, s) == Edges(g0, d, s) + if s == svc then multiset(edges[..i])[d] else 0
    {
      var dep := edges[i];
      assert edges[..i + 1] == edges[..i] + [dep];
      if dep in g {
        g := g[dep := g[dep].(dependents := g[dep].dependents + [svc])];
      }
    }
    assert edges[..|edges|] == edges;
  }

  /** With the reverse edges in place, a service's dependents are exactly the known services
      that depend on it. */
  lemma DependentsAreReversed(deps: map<string, seq<string>>, g: Graph, s: string, d: string)
    requires Reversed(deps, g, deps.Keys) && d in deps
    ensures (d in g && s in g[d].dependents) <==> s in deps && d in deps[s]
  {
    assert s in Dependents(g, d) <==> Edges(g, d, s) > 0;
    if s in deps { assert d in deps[s] <==> d in multiset(deps[s]); }
  }
}
