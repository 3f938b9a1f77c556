/** Build features, their dependencies and the compiled and runtime profiles.

    The dependency check is a depth-first search with a set of active and a set of complete
    features. It is shown to accept exactly the graphs without a cycle whose dependencies
    are known and of no higher tier. */
module FeatureGraph {

  type Id = nat

  /** `tier` is the rank of the feature's profile: 0 prod, 1 observe-dev, 2 probe-dev, 3 mutate-dev. */
  datatype Feature = Feature(tier: nat, dependencies: seq<Id>, evidence: seq<Id>)

  type Graph = map<Id, Feature>

  // ---- paths and cycles ----

  predicate Edge(g: Graph, a: Id, b: Id) {
    a in g && b in g[a].dependencies
  }

  /** A nonempty walk along dependencies. */
  ghost predicate Path(g: Graph, p: seq<Id>) {
    |p| > 0 && forall k | 0 <= k < |p| - 1 :: Edge(g, p[k], p[k + 1])
  }

  ghost predicate Cycle(g: Graph, p: seq<Id>) {
    |p| > 1 && Path(g, p) && p[0] == p[|p| - 1]
  }

  ghost predicate Acyclic(g: Graph) {
    forall p :: !Cycle(g, p)
  }

  /** Every dependency names a feature. */
  ghost predicate Known(g: Graph) {
    forall a, b | Edge(g, a, b) :: b in g
  }

  ghost predicate EvidenceKnown(g: Graph) {
    forall a, k | a in g && 0 <= k < |g[a].evidence| :: g[a].evidence[k] in g
  }

  ghost predicate TierMonotone(g: Graph) {
    forall a, b | Edge(g, a, b) && b in g :: g[b].tier <= g[a].tier
  }

  // ---- topological orders ----

  function Members(s: seq<Id>): set<Id> {
    set x | x in s
  }

  /** Each feature comes after all of its dependencies. */
  ghost predicate Topological(g: Graph, order: seq<Id>) {
    forall k | 0 <= k < |order| :: order[k] in g && forall b | b in g[order[k]].dependencies :: b in order[..k]
  }

  lemma {:induction false} PathDescends(g: Graph, order: seq<Id>, p: seq<Id>, k: nat)
    requires Topological(g, order) && Path(g, p) && k < |order| && p[0] == order[k] && |p| > 1
    ensures p[|p| - 1] in order[..k]
    decreases |p|
  {
    assert Edge(g, p[0], p[1]);
    var j :| 0 <= j < k && order[..k][j] == p[1];
    assert order[j] == p[1];
    if |p| == 2 {
    } else {
      assert Path(g, p[1..]) by {
        forall i | 0 <= i < |p[1..]| - 1 ensures Edge(g, p[1..][i], p[1..][i + 1]) {
          assert Edge(g, p[i + 1], p[i + 2]);
        }
      }
      PathDescends(g, order, p[1..], j);
      assert order[..j] <= order[..k];
    }
  }

  /** The first position of a feature in an order. */
  function IndexIn(order: seq<Id>, x: Id): (k: nat)
    requires x in order
    ensures k < |order| && order[k] == x && x !in order[..k]
  {
    if order[0] == x then 0
    else
      assert x in order[1..];
      var k := IndexIn(order[1..], x) + 1;
      assert order[..k] == [order[0]] + order[1..][..k - 1];
      k
  }

  lemma TopologicalIsAcyclic(g: Graph, order: seq<Id>)
    requires Topological(g, order) && Members(order) == g.Keys
    ensures Acyclic(g)
  {
    forall p ensures !Cycle(g, p) {
      if Cycle(g, p) {
        assert Edge(g, p[0], p[1]);
        assert p[0] in Members(order);
        PathDescends(g, order, p, IndexIn(order, p[0]));
      }
    }
  }

  // ---- the depth-first search ----

  class Search {
    const graph: Graph
    var active: set<Id>
    var complete: set<Id>
    /** The active features from the root of the search down, and the complete ones in order. */
    ghost var trail: seq<Id>
    ghost var finished: seq<Id>

    ghost predicate Valid()
      reads this
    {
      && Known(graph)
      && active == Members(trail) && active <= graph.Keys
      && complete == Members(finished) && Topological(graph, finished)
    }

    constructor (g: Graph)
      requires Known(g)
      ensures Valid() && graph == g && active == {} && complete == {} && trail == []
    {
      graph, active, complete, trail, finished := g, {}, {}, [], [];
    }

    /** Visits a feature below the active ones. It either completes the feature and leaves
        the active set as it was, or it has met a cycle. */
    method Visit(id: Id) returns (ok: bool)
      requires Valid() && id in graph && Path(graph, trail + [id])
      modifies this
      ensures ok ==> Valid() && id in complete && old(complete) <= complete
      ensures ok ==> active == old(active) && trail == old(trail)
      ensures !ok ==> !Acyclic(graph)
      decreases graph.Keys - active
    {
      if id in active {
        ClosesCycle(graph, trail, id);
        return false;
      }
      if id in complete { return true; }
      active, trail := active + {id}, trail + [id];
      var dependencies := graph[id].dependencies;
      for k := 0 to |dependencies|
        invariant Valid() && old(complete) <= complete
        invariant active == old(active) + {id} && trail == old(trail) + [id]
        invariant forall j | 0 <= j < k :: dependencies[j] in complete
      {
        assert Edge(graph, id, dependencies[k]);
        PathGrows(graph, trail, dependencies[k]);
        ok := Visit(dependencies[k]);
        if !ok { return false; }
      }
      FinishedGrows(graph, finished, id);
      active, trail := active - {id}, old(trail);
      complete, finished := complete + {id}, finished + [id];
      ok := true;
    }
  }

  lemma FinishedGrows(g: Graph, finished: seq<Id>, id: Id)
    requires Topological(g, finished) && id in g
    requires forall k | 0 <= k < |g[id].dependencies| :: g[id].dependencies[k] in Members(finished)
    ensures Topological(g, finished + [id]) && Members(finished + [id]) == Members(finished) + {id}
  {
    var longer := finished + [id];
    forall k | 0 <= k < |longer|
      ensures longer[k] in g && forall b | b in g[longer[k]].dependencies :: b in longer[..k]
    {
      if k < |finished| {
        assert longer[..k] == finished[..k] && longer[k] == finished[k];
      } else {
        assert longer[..k] == finished;
      }
    }
  }

  lemma PathGrows(g: Graph, p: seq<Id>, b: Id)
    requires Path(g, p) && Edge(g, p[|p| - 1], b)
    ensures Path(g, p + [b])
  {
  }

  lemma ClosesCycle(g: Graph, trail: seq<Id>, id: Id)
    requires Path(g, trail + [id]) && id in trail
    ensures !Acyclic(g)
  {
    var k :| 0 <= k < |trail| && trail[k] == id;
    var p := trail + [id];
    var c := p[k..];
    forall i | 0 <= i < |c| - 1 ensures Edge(g, c[i], c[i + 1]) {
      assert Edge(g, p[k + i], p[k + i + 1]);
    }
    assert Cycle(g, c);
  }

  // ---- the whole check ----

  ghost predicate Accepted(g: Graph) {
    Known(g) && TierMonotone(g) && EvidenceKnown(g) && Acyclic(g)
  }

  predicate LocalOk(g: Graph, a: Id)
    requires a in g
  {
    && (forall k | 0 <= k < |g[a].dependencies| ::
          g[a].dependencies[k] in g && g[g[a].dependencies[k]].tier <= g[a].tier)
    && (forall k | 0 <= k < |g[a].evidence| :: g[a].evidence[k] in g)
  }

  /** The first pass: names and tiers of one feature's dependencies. */
  method CheckFeature(g: Graph, a: Id) returns (ok: bool)
    requires a in g
    ensures ok <==> LocalOk(g, a)
  {
    for k := 0 to |g[a].dependencies|
      invariant forall j | 0 <= j < k :: g[a].dependencies[j] in g && g[g[a].dependencies[j]].tier <= g[a].tier
    {
      if g[a].dependencies[k] !in g { return false; }
      if g[g[a].dependencies[k]].tier > g[a].tier { return false; }
    }
    for k := 0 to |g[a].evidence|
      invariant forall j | 0 <= j < k :: g[a].evidence[j] in g
    {
      if g[a].evidence[k] !in g { return false; }
    }
    ok := true;
  }

  /** The check terminates on every graph and accepts exactly the acyclic ones whose
      dependencies are known and of no higher tier. `order` is the file's order of the
      features. */
  method ValidateDependencies(g: Graph, order: seq<Id>) returns (ok: bool)
    requires Members(order) == g.Keys
    ensures ok <==> Accepted(g)
  {
    for n := 0 to |order|
      invariant forall k | 0 <= k < n :: order[k] in g && LocalOk(g, order[k])
    {
      assert order[n] in Members(order);
      ok := CheckFeature(g, order[n]);
      if !ok {
        if Known(g) && TierMonotone(g) && EvidenceKnown(g) { LocalIsGlobal(g, order[n]); }
        return;
      }
    }
    forall a | a in g ensures LocalOk(g, a) { assert a in Members(order); }
    AllLocal(g);
    var search := new Search(g);
    for n := 0 to |order|
      invariant search.Valid() && fresh(search) && search.graph == g
      invariant search.active == {} && search.trail == [] && forall k | 0 <= k < n :: order[k] in search.complete
    {
      assert order[n] in Members(order);
      ok := search.Visit(order[n]);
      if !ok { return; }
    }
    assert search.complete == g.Keys by {
      forall a | a in g ensures a in search.complete { assert a in Members(order); }
      forall a | a in search.complete ensures a in g { assert a in search.finished; }
    }
    TopologicalIsAcyclic(g, search.finished);
    ok := true;
  }

  lemma LocalIsGlobal(g: Graph, a: Id)
    requires a in g && Known(g) && TierMonotone(g) && EvidenceKnown(g)
    ensures LocalOk(g, a)
  {
    forall k | 0 <= k < |g[a].dependencies|
      ensures g[a].dependencies[k] in g && g[g[a].dependencies[k]].tier <= g[a].tier
    {
      assert Edge(g, a, g[a].dependencies[k]);
    }
  }

  lemma AllLocal(g: Graph)
    requires forall a | a in g :: LocalOk(g, a)
    ensures Known(g) && TierMonotone(g) && EvidenceKnown(g)
  {
    forall a, b | Edge(g, a, b) ensures b in g && g[b].tier <= g[a].tier {
      var k :| 0 <= k < |g[a].dependencies| && g[a].dependencies[k] == b;
      assert LocalOk(g, a);
    }
  }

  // ---- profiles ----

  /** In an accepted graph a profile that has a feature has everything the feature depends
      on, directly or not: tiers never rise along a path. */
  lemma {:induction false} CeilingIsClosed(g: Graph, p: seq<Id>, ceiling: nat)
    requires Accepted(g) && Path(g, p) && p[0] in g && g[p[0]].tier <= ceiling
    ensures p[|p| - 1] in g && g[p[|p| - 1]].tier <= ceiling
    decreases |p|
  {
    if |p| <= 1 {
    } else {
      assert Edge(g, p[0], p[1]);
      assert Path(g, p[1..]) by {
        forall i | 0 <= i < |p[1..]| - 1 ensures Edge(g, p[1..][i], p[1..][i + 1]) {
          assert Edge(g, p[i + 1], p[i + 2]);
        }
      }
      CeilingIsClosed(g, p[1..], ceiling);
    }
  }

  /** An interface row belongs to one feature. */
  datatype Row = Row(feature: Id, name: nat)

  datatype Rows = Selected(rows: seq<Row>) | Refused

  const MUTATE_DEV: nat := 3

  function KeepAtMost(row: Row, g: Graph, ceiling: int): seq<Row>
    requires row.feature in g
  {
    if g[row.feature].tier <= ceiling then [row] else []
  }

  function AtMost(rows: seq<Row>, g: Graph, ceiling: int): (r: seq<Row>)
    requires forall x | x in rows :: x.feature in g
    ensures forall x :: x in r <==> x in rows && g[x.feature].tier <= ceiling
  {
    if rows == [] then [] else KeepAtMost(rows[0], g, ceiling) + AtMost(rows[1..], g, ceiling)
  }

  lemma {:induction false} AtMostAppends(rows: seq<Row>, row: Row, g: Graph, ceiling: int)
    requires row.feature in g && forall x | x in rows :: x.feature in g
    ensures AtMost(rows + [row], g, ceiling) == AtMost(rows, g, ceiling) + KeepAtMost(row, g, ceiling)
  {
    if rows == [] {
      assert [row][1..] == [] && [] + [row] == [row];
    } else {
      assert (rows + [row])[1..] == rows[1..] + [row];
      AtMostAppends(rows[1..], row, g, ceiling);
    }
  }

  /** The rows compiled into a profile, in file order. */
  method ProfileRows(rows: seq<Row>, g: Graph, profile: nat) returns (r: Rows)
    requires forall x | x in rows :: x.feature in g && g[x.feature].tier <= 3
    ensures r == if profile > 3 then Refused else Selected(AtMost(rows, g, profile))
  {
    if profile > MUTATE_DEV { return Refused; }
    var selected := [];
    for k := 0 to |rows|
      invariant selected == AtMost(rows[..k], g, profile)
    {
      AtMostAppends(rows[..k], rows[k], g, profile);
      assert rows[..k + 1] == rows[..k] + [rows[k]];
      if g[rows[k].feature].tier <= profile { selected := selected + [rows[k]]; }
    }
    assert rows[..|rows|] == rows;
    r := Selected(selected);
  }

  /** The rows a runtime profile shows of a compiled one. The runtime profile `off` has rank -1. */
  method RuntimeRows(rows: seq<Row>, g: Graph, compiled: nat, runtime: int) returns (r: Rows)
    requires forall x | x in rows :: x.feature in g && g[x.feature].tier <= 3
    requires runtime == -1 || 1 <= runtime <= 3
    ensures compiled > 3 || runtime > compiled ==> r == Refused
    ensures compiled <= 3 && runtime <= compiled ==> r == Selected(AtMost(rows, g, runtime))
  {
    if compiled > MUTATE_DEV || runtime > compiled { return Refused; }
    var all := ProfileRows(rows, g, compiled);
    RuntimeIsProfile(rows, g, compiled, runtime);
    r := Selected(AtMost(all.rows, g, runtime));
  }

  /** Going through the compiled profile changes nothing: what a runtime profile shows is what
      compiling that profile itself would have selected, and `off` shows nothing. */
  lemma {:induction false} RuntimeIsProfile(rows: seq<Row>, g: Graph, compiled: nat, runtime: int)
    requires forall x | x in rows :: x.feature in g
    requires runtime <= compiled
    ensures AtMost(AtMost(rows, g, compiled), g, runtime) == AtMost(rows, g, runtime)
    ensures runtime == -1 ==> AtMost(rows, g, runtime) == []
  {
    if rows == [] {
    } else {
      RuntimeIsProfile(rows[1..], g, compiled, runtime);
      var kept := AtMost(rows[1..], g, compiled);
      if g[rows[0].feature].tier <= compiled {
        assert ([rows[0]] + kept)[1..] == kept;
      } else {
        assert [] + kept == kept && [] + AtMost(rows[1..], g, runtime) == AtMost(rows[1..], g, runtime);
      }
    }
  }
}
