/**
 * Connectivity analysis and blast-radius simulation over the undirected
 * skeleton of the topology: adjacency building, connected components by
 * breadth-first search, articulation points by Tarjan's low-link depth-first
 * search, reachable zone pairs, and the offline-impact report.
 */
module Simulate {
  import opened Domain

  // ---------------------------------------------------------------------------
  // Small sequence vocabulary
  // ---------------------------------------------------------------------------

  ghost predicate NoDup<T>(s: seq<T>) {
    forall i, j :: 0 <= i < j < |s| ==> s[i] != s[j]
  }

  function Elems<T>(s: seq<T>): set<T> {
    set x | x in s
  }

  /** Append x unless it is already present (`Set.prototype.add` on an insertion-ordered set). */
  function AddNew(s: seq<Id>, x: Id): (r: seq<Id>)
    ensures Elems(r) == Elems(s) + {x}
    ensures NoDup(s) ==> NoDup(r)
  {
    if x in s then s else s + [x]
  }

  // ---------------------------------------------------------------------------
  // Adjacency
  // ---------------------------------------------------------------------------

  /** The link joins a and b, in either orientation. */
  predicate Joins(e: Link, a: Id, b: Id) {
    (e.source == a && e.target == b) || (e.source == b && e.target == a)
  }

  /** The ids of `nodes`, without duplicates, in order of first appearance, leaving out `skip`. */
  function OkOrder(nodes: seq<Node>, skip: Option<Id>): (r: seq<Id>)
    ensures NoDup(r)
    ensures forall x :: x in r <==> (exists n :: n in nodes && n.id == x) && skip != Some(x)
  {
    if |nodes| == 0 then []
    else
      var prefix := OkOrder(nodes[..|nodes| - 1], skip);
      var x := nodes[|nodes| - 1].id;
      assert nodes == nodes[..|nodes| - 1] + [nodes[|nodes| - 1]];
      if x in prefix || skip == Some(x) then prefix else prefix + [x]
  }

  /** The ids a graph built with `skip` keeps. */
  ghost function OkIds(nodes: seq<Node>, skip: Option<Id>): set<Id> {
    set n | n in nodes && skip != Some(n.id) :: n.id
  }

  /** Some link of `edges` joins a and b. */
  ghost predicate Linked(edges: seq<Link>, a: Id, b: Id) {
    exists i :: 0 <= i < |edges| && Joins(edges[i], a, b)
  }

  lemma LinkedSnoc(edges: seq<Link>, a: Id, b: Id)
    requires |edges| > 0
    ensures Linked(edges, a, b) <==>
      Linked(edges[..|edges| - 1], a, b) || Joins(edges[|edges| - 1], a, b)
  {
    var n := |edges| - 1;
    if Linked(edges, a, b) {
      var i :| 0 <= i < |edges| && Joins(edges[i], a, b);
      if i < n {
        assert edges[..n][i] == edges[i];
      }
    }
    if Linked(edges[..n], a, b) {
      var i :| 0 <= i < n && Joins(edges[..n][i], a, b);
      assert edges[i] == edges[..n][i];
    }
  }

  lemma LinkedSymmetric(edges: seq<Link>, a: Id, b: Id)
    ensures Linked(edges, a, b) <==> Linked(edges, b, a)
  {
    if Linked(edges, a, b) {
      var i :| 0 <= i < |edges| && Joins(edges[i], a, b);
      assert Joins(edges[i], b, a);
    }
    if Linked(edges, b, a) {
      var i :| 0 <= i < |edges| && Joins(edges[i], b, a);
      assert Joins(edges[i], a, b);
    }
  }

  /** `adj.get(a).add(b); adj.get(b).add(a)`. */
  function AddLink(adj: map<Id, seq<Id>>, a: Id, b: Id): (r: map<Id, seq<Id>>)
    requires a in adj && b in adj
    ensures r.Keys == adj.Keys
    ensures forall x :: x in adj && NoDup(adj[x]) ==> NoDup(r[x])
    ensures forall x, y :: x in adj ==>
      (y in r[x] <==> y in adj[x] || (x == a && y == b) || (x == b && y == a))
  {
    var adj1 := adj[a := AddNew(adj[a], b)];
    adj1[b := AddNew(adj1[b], a)]
  }

  lemma OkOrderIds(nodes: seq<Node>, skip: Option<Id>)
    ensures Elems(OkOrder(nodes, skip)) == OkIds(nodes, skip)
  {
    var ok := Elems(OkOrder(nodes, skip));
    forall x ensures x in ok <==> x in OkIds(nodes, skip) {
      if x in ok {
        var n :| n in nodes && n.id == x;
      }
    }
  }

  /** The neighbour lists produced by the loop over `edges`, one list per kept id. */
  function AddEdges(ok: set<Id>, edges: seq<Link>, skip: Option<Id>): (adj: map<Id, seq<Id>>)
    requires skip.Some? ==> skip.value !in ok
    ensures adj.Keys == ok
    ensures forall a :: a in adj ==> NoDup(adj[a])
    ensures forall a, b :: a in adj ==> (b in adj[a] <==> b in ok && Linked(edges, a, b))
    decreases |edges|
  {
    if |edges| == 0 then map id | id in ok :: []
    else
      var n := |edges| - 1;
      var adj := AddEdges(ok, edges[..n], skip);
      var e := edges[n];
      assert forall a, b :: Linked(edges, a, b) <==> Linked(edges[..n], a, b) || Joins(e, a, b) by {
        forall a, b ensures Linked(edges, a, b) <==> Linked(edges[..n], a, b) || Joins(e, a, b) {
          LinkedSnoc(edges, a, b);
        }
      }
      if Some(e.source) == skip || Some(e.target) == skip || e.source !in ok || e.target !in ok then
        adj
      else
        AddLink(adj, e.source, e.target)
  }

  /**
   * The undirected adjacency of `buildAdj`: the kept ids in insertion order
   * and, for each, its neighbours in insertion order.
   */
  datatype Graph = Graph(order: seq<Id>, adj: map<Id, seq<Id>>)

  /** The shape every graph built by `BuildAdj` has. */
  ghost predicate WellFormed(g: Graph) {
    && NoDup(g.order)
    && g.adj.Keys == Elems(g.order)
    && (forall u :: u in g.adj ==> NoDup(g.adj[u]))
    && (forall u, v :: u in g.adj && v in g.adj[u] ==> v in g.adj && u in g.adj[v])
  }

  /** `buildAdj(nodes, edges, skipId)`. */
  function BuildAdj(nodes: seq<Node>, edges: seq<Link>, skip: Option<Id>): (g: Graph)
    ensures WellFormed(g)
    ensures Elems(g.order) == OkIds(nodes, skip)
    ensures forall a, b :: a in g.adj ==> (b in g.adj[a] <==> b in g.adj && Linked(edges, a, b))
  {
    var order := OkOrder(nodes, skip);
    OkOrderIds(nodes, skip);
    var adj := AddEdges(Elems(order), edges, skip);
    GraphShape(order, adj, edges);
    Graph(order, adj)
  }

  lemma GraphShape(order: seq<Id>, adj: map<Id, seq<Id>>, edges: seq<Link>)
    requires NoDup(order)
    requires adj.Keys == Elems(order)
    requires forall a :: a in adj ==> NoDup(adj[a])
    requires forall a, b :: a in adj ==> (b in adj[a] <==> b in Elems(order) && Linked(edges, a, b))
    ensures WellFormed(Graph(order, adj))
  {
    forall u, v | u in adj && v in adj[u] ensures v in adj && u in adj[v] {
      LinkedSymmetric(edges, u, v);
    }
  }

  /**
   * The adjacency is symmetric, never mentions the skipped id, and links
   * exactly the pairs of kept ids that some edge joins.
   */
  lemma AdjacencyFacts(nodes: seq<Node>, edges: seq<Link>, skip: Option<Id>, a: Id, b: Id)
    ensures var g := BuildAdj(nodes, edges, skip);
      && (a in g.adj && b in g.adj[a] <==> b in g.adj && a in g.adj[b])
      && (skip.Some? ==> skip.value !in g.adj)
      && (a in g.adj && b in g.adj[a] <==>
            a in OkIds(nodes, skip) && b in OkIds(nodes, skip) && Linked(edges, a, b))
  {
    var g := BuildAdj(nodes, edges, skip);
    assert g.adj.Keys == OkIds(nodes, skip);
    LinkedSymmetric(edges, a, b);
  }

  // ---------------------------------------------------------------------------
  // Paths and reachability
  // ---------------------------------------------------------------------------

  /** p is a walk of the graph: consecutive ids are adjacent. */
  ghost predicate IsPath(g: Graph, p: seq<Id>) {
    && |p| > 0
    && (forall i :: 0 <= i < |p| ==> p[i] in g.adj)
    && (forall i :: 0 < i < |p| ==> p[i] in g.adj[p[i - 1]])
  }

  /** Some walk of g leads from a to b. */
  ghost predicate Reachable(g: Graph, a: Id, b: Id) {
    exists p :: IsPath(g, p) && p[0] == a && p[|p| - 1] == b
  }

  lemma ReachRefl(g: Graph, a: Id)
    requires a in g.adj
    ensures Reachable(g, a, a)
  {
    assert IsPath(g, [a]);
  }

  lemma ReachStep(g: Graph, a: Id, u: Id, v: Id)
    requires Reachable(g, a, u)
    requires u in g.adj && v in g.adj[u] && v in g.adj
    ensures Reachable(g, a, v)
  {
    var p :| IsPath(g, p) && p[0] == a && p[|p| - 1] == u;
    var p' := p + [v];
    assert IsPath(g, p');
  }

  // ---------------------------------------------------------------------------
  // Connected components by breadth-first search
  // ---------------------------------------------------------------------------

  /** The inner loop of `components`: mark and enqueue the unseen neighbours of one vertex, in order. */
  function Visit(nbrs: seq<Id>, seen: set<Id>, q: seq<Id>): (res: (set<Id>, seq<Id>))
    ensures res.0 == seen + Elems(nbrs)
    ensures |q| <= |res.1| && res.1[..|q|] == q
    ensures Elems(res.1[|q|..]) == Elems(nbrs) - seen
    ensures NoDup(res.1[|q|..])
  {
    if |nbrs| == 0 then (seen, q)
    else
      assert Elems(nbrs) == {nbrs[0]} + Elems(nbrs[1..]);
      if nbrs[0] in seen then Visit(nbrs[1..], seen, q)
      else
        var res := Visit(nbrs[1..], seen + {nbrs[0]}, q + [nbrs[0]]);
        assert res.1[..|q| + 1] == q + [nbrs[0]];
        assert res.1[..|q|] == res.1[..|q| + 1][..|q|];
        assert res.1[|q|..] == [nbrs[0]] + res.1[|q| + 1..];
        assert Elems(res.1[|q|..]) == {nbrs[0]} + Elems(res.1[|q| + 1..]);
        res
  }

  /** No adjacency leaves s. */
  ghost predicate Closed(g: Graph, s: set<Id>) {
    forall x, y :: x in s && x in g.adj && y in g.adj[x] ==> y in s
  }

  /**
   * The state of the breadth-first search of one component: `comp` holds
   * the dequeued ids, `q` the queue; everything in `seen` outside both
   * belongs to earlier, closed components.
   */
  ghost predicate BfsInv(g: Graph, q: seq<Id>, seen: set<Id>, comp: seq<Id>) {
    var cq := comp + q;
    && |cq| > 0
    && NoDup(cq)
    && Elems(cq) <= seen <= g.adj.Keys
    && Closed(g, seen - Elems(cq))
    && (forall u :: u in comp ==> Elems(g.adj[u]) <= seen)
    && (forall x :: x in cq ==> Reachable(g, cq[0], x))
  }

  lemma CardShrinks(k: set<Id>, a: set<Id>, b: set<Id>)
    requires a <= b <= k
    ensures |k - b| <= |k - a|
    ensures a != b ==> |k - b| < |k - a|
  {
    var d, e := k - a, k - b;
    assert d == e + (d - e);
    assert |d| == |e| + |d - e|;
    if a != b {
      var x :| x in b && x !in a;
      var d, e := k - a, k - b;
      assert d == e + (d - e);
      assert x in d - e;
      assert |d| == |e| + |d - e|;
    }
  }

  lemma NoDupConcat(a: seq<Id>, b: seq<Id>)
    requires NoDup(a) && NoDup(b) && Elems(a) !! Elems(b)
    ensures NoDup(a + b)
  {
    var c := a + b;
    forall i, j | 0 <= i < j < |c| ensures c[i] != c[j] {
      if i < |a| && j >= |a| {
        assert c[i] in Elems(a) && c[j] == b[j - |a|] && c[j] in Elems(b);
      } else if i >= |a| {
        assert c[i] == b[i - |a|] && c[j] == b[j - |a|];
      }
    }
  }

  lemma ElemsEmpty<T>(s: seq<T>)
    ensures Elems(s) == {} <==> |s| == 0
  {
    if |s| > 0 {
      assert s[0] in Elems(s);
    }
  }

  /** What one call of `Visit` does to the queue of the search. */
  lemma VisitShape(g: Graph, q: seq<Id>, seen: set<Id>, seen1: set<Id>, q1: seq<Id>)
    requires |q| > 0 && q[0] in g.adj
    requires (seen1, q1) == Visit(g.adj[q[0]], seen, q[1..])
    ensures |q| - 1 <= |q1|
    ensures q1 == q[1..] + q1[|q| - 1..]
    ensures Elems(q1[|q| - 1..]) == Elems(g.adj[q[0]]) - seen
    ensures NoDup(q1[|q| - 1..])
    ensures seen1 == seen + Elems(q1[|q| - 1..])
  {
    var added := q1[|q| - 1..];
    assert q1 == q1[..|q| - 1] + added;
  }

  /** One iteration of the `while (q.length)` loop keeps the invariant. */
  lemma BfsStep(g: Graph, q: seq<Id>, seen: set<Id>, comp: seq<Id>, seen1: set<Id>, q1: seq<Id>)
    requires WellFormed(g)
    requires BfsInv(g, q, seen, comp)
    requires |q| > 0
    requires (seen1, q1) == Visit(g.adj[q[0]], seen, q[1..])
    ensures BfsInv(g, q1, seen1, comp + [q[0]])
    ensures seen1 - Elems(comp + [q[0]] + q1) == seen - Elems(comp + q)
    ensures comp + [q[0]] + q1 == comp + q + q1[|q| - 1..]
    ensures seen <= seen1 <= g.adj.Keys
    ensures seen1 == seen ==> |q1| < |q|
  {
    var u := q[0];
    var cq := comp + q;
    VisitShape(g, q, seen, seen1, q1);
    var added := q1[|q| - 1..];
    assert comp + [u] + q1 == cq + added;
    BfsStepInv(g, cq, seen, comp, u, added, seen1);
    ElemsEmpty(added);
  }

  lemma BfsStepInv(g: Graph, cq: seq<Id>, seen: set<Id>, comp: seq<Id>, u: Id, added: seq<Id>, seen1: set<Id>)
    requires WellFormed(g)
    requires |cq| > |comp| && cq[..|comp|] == comp && cq[|comp|] == u
    requires NoDup(cq) && Elems(cq) <= seen <= g.adj.Keys
    requires Closed(g, seen - Elems(cq))
    requires forall x :: x in comp ==> Elems(g.adj[x]) <= seen
    requires forall x :: x in cq ==> Reachable(g, cq[0], x)
    requires Elems(added) == Elems(g.adj[u]) - seen && NoDup(added)
    requires seen1 == seen + Elems(added)
    ensures BfsInv(g, cq[|comp| + 1..] + added, seen1, comp + [u])
    ensures seen1 - Elems(cq + added) == seen - Elems(cq)
    ensures seen <= seen1 <= g.adj.Keys
  {
    var cq1 := cq + added;
    assert comp + [u] + (cq[|comp| + 1..] + added) == cq1 by {
      assert cq == comp + [u] + cq[|comp| + 1..];
    }
    assert Elems(cq1) == Elems(cq) + Elems(added);
    assert seen1 - Elems(cq1) == seen - Elems(cq);
    NoDupConcat(cq, added);
    BfsReach(g, cq, u, added);
    assert forall x :: x in comp + [u] ==> Elems(g.adj[x]) <= seen1;
  }

  lemma BfsReach(g: Graph, cq: seq<Id>, u: Id, added: seq<Id>)
    requires WellFormed(g)
    requires |cq| > 0 && u in cq && u in g.adj
    requires forall x :: x in cq ==> Reachable(g, cq[0], x)
    requires Elems(added) <= Elems(g.adj[u])
    ensures forall x :: x in cq + added ==> Reachable(g, (cq + added)[0], x)
  {
    assert (cq + added)[0] == cq[0];
    forall x | x in cq + added ensures Reachable(g, cq[0], x) {
      if x !in cq {
        assert x in Elems(added);
        ReachStep(g, cq[0], u, x);
      }
    }
  }

  /** The `while (q.length)` loop of `components`: the rest of the component reached from the queue. */
  function Bfs(g: Graph, q: seq<Id>, seen: set<Id>, comp: seq<Id>): (res: (seq<Id>, set<Id>))
    requires WellFormed(g)
    requires BfsInv(g, q, seen, comp)
    ensures |comp + q| <= |res.0| && res.0[..|comp + q|] == comp + q
    ensures NoDup(res.0)
    ensures Elems(res.0) <= g.adj.Keys
    ensures res.1 == (seen - Elems(comp + q)) + Elems(res.0)
    ensures Elems(res.0) !! (seen - Elems(comp + q))
    ensures forall u :: u in res.0 ==> Elems(g.adj[u]) <= Elems(res.0)
    ensures forall x :: x in res.0 ==> Reachable(g, res.0[0], x)
    decreases |g.adj.Keys - seen|, |q|
  {
    if |q| == 0 then
      BfsDone(g, seen, comp);
      (comp, seen)
    else
      var r1 := Visit(g.adj[q[0]], seen, q[1..]);
      BfsStep(g, q, seen, comp, r1.0, r1.1);
      CardShrinks(g.adj.Keys, seen, r1.0);
      var res := Bfs(g, r1.1, r1.0, comp + [q[0]]);
      assert res.0[..|comp + q|] == res.0[..|comp + [q[0]] + r1.1|][..|comp + q|];
      res
  }

  /** An empty queue leaves a closed component. */
  lemma BfsDone(g: Graph, seen: set<Id>, comp: seq<Id>)
    requires WellFormed(g)
    requires BfsInv(g, [], seen, comp)
    ensures forall u :: u in comp ==> Elems(g.adj[u]) <= Elems(comp)
  {
    assert comp + [] == comp;
    var s0 := seen - Elems(comp);
    forall u, v | u in comp && v in g.adj[u] ensures v in comp {
      assert v in seen;
      assert u in g.adj[v];
      assert u !in s0;
      assert v !in s0;
    }
  }

  /**
   * A component as `components` reports it: non-empty, without duplicates,
   * closed under adjacency, every member reachable from the first.
   */
  ghost predicate IsComponent(g: Graph, c: seq<Id>) {
    && |c| > 0 && NoDup(c) && Elems(c) <= g.adj.Keys
    && (forall u :: u in c ==> Elems(g.adj[u]) <= Elems(c))
    && (forall x :: x in c ==> Reachable(g, c[0], x))
  }

  /** Every id some component lists. */
  ghost function Covered(comps: seq<seq<Id>>): set<Id> {
    set k, x | 0 <= k < |comps| && x in comps[k] :: x
  }

  ghost predicate Disjoint(comps: seq<seq<Id>>) {
    forall k, l :: 0 <= k < l < |comps| ==> Elems(comps[k]) !! Elems(comps[l])
  }

  ghost predicate CompsInv(g: Graph, seen: set<Id>, comps: seq<seq<Id>>) {
    && seen == Covered(comps)
    && (forall k :: 0 <= k < |comps| ==> IsComponent(g, comps[k]))
    && Disjoint(comps)
  }

  /** A search started at an unseen id begins in the state `BfsInv` describes. */
  lemma NewSearch(g: Graph, seen: set<Id>, comps: seq<seq<Id>>, id: Id)
    requires WellFormed(g)
    requires CompsInv(g, seen, comps)
    requires id in g.adj && id !in seen
    ensures BfsInv(g, [id], seen + {id}, [])
  {
    assert [] + [id] == [id];
    assert Elems([id]) == {id};
    ReachRefl(g, id);
    forall x, y | x in seen && x in g.adj && y in g.adj[x] ensures y in seen {
      var k :| 0 <= k < |comps| && x in comps[k];
      assert y in Elems(comps[k]);
    }
    assert seen + {id} - Elems([id]) == seen;
    forall x | x in seen ensures x in g.adj {
      var k :| 0 <= k < |comps| && x in comps[k];
    }
  }

  /** Appending the component a search found keeps the partition invariant. */
  lemma CompsStep(g: Graph, seen: set<Id>, comps: seq<seq<Id>>, id: Id, c: seq<Id>, seen1: set<Id>)
    requires WellFormed(g)
    requires CompsInv(g, seen, comps)
    requires id !in seen
    requires 1 <= |c| && c[0] == id && NoDup(c) && Elems(c) <= g.adj.Keys
    requires seen1 == seen + Elems(c)
    requires Elems(c) !! seen
    requires forall u :: u in c ==> Elems(g.adj[u]) <= Elems(c)
    requires forall x :: x in c ==> Reachable(g, c[0], x)
    ensures CompsInv(g, seen1, comps + [c])
  {
    var cs := comps + [c];
    assert Covered(cs) == Covered(comps) + Elems(c) by {
      forall x | x in Covered(cs) ensures x in Covered(comps) + Elems(c) {
        var k :| 0 <= k < |cs| && x in cs[k];
        if k < |comps| {
          assert x in comps[k];
        }
      }
      forall x | x in Covered(comps) + Elems(c) ensures x in Covered(cs) {
        if x in Elems(c) {
          assert x in cs[|comps|];
        } else {
          var k :| 0 <= k < |comps| && x in comps[k];
          assert x in cs[k];
        }
      }
    }
    forall k, l | 0 <= k < l < |cs| ensures Elems(cs[k]) !! Elems(cs[l]) {
      if l == |comps| {
        forall x | x in cs[k] ensures x in seen {
          assert x in comps[k];
        }
      }
    }
  }

  /** The outer `for (const id of adj.keys())` loop of `components`. */
  function CompsLoop(g: Graph, i: nat, seen: set<Id>, comps: seq<seq<Id>>): (r: seq<seq<Id>>)
    requires WellFormed(g)
    requires i <= |g.order|
    requires CompsInv(g, seen, comps)
    requires Elems(g.order[..i]) <= seen
    ensures CompsInv(g, Covered(r), r)
    ensures Covered(r) == g.adj.Keys
    decreases |g.order| - i
  {
    if i == |g.order| then
      assert g.order[..i] == g.order;
      CoveredInKeys(g, comps);
      comps
    else
      var id := g.order[i];
      assert g.order[..i + 1] == g.order[..i] + [id];
      if id in seen then CompsLoop(g, i + 1, seen, comps)
      else
        NewSearch(g, seen, comps, id);
        var res := Bfs(g, [id], seen + {id}, []);
        assert [] + [id] == [id] && Elems([id]) == {id};
        assert seen + {id} - Elems([id]) == seen;
        assert res.0[..1] == [id];
        CompsStep(g, seen, comps, id, res.0, res.1);
        CompsLoop(g, i + 1, res.1, comps + [res.0])
  }

  lemma CoveredInKeys(g: Graph, comps: seq<seq<Id>>)
    requires forall k :: 0 <= k < |comps| ==> IsComponent(g, comps[k])
    ensures Covered(comps) <= g.adj.Keys
  {
    forall x | x in Covered(comps) ensures x in g.adj {
      var k :| 0 <= k < |comps| && x in comps[k];
    }
  }

  /** `components(nodes, edges, skipId)`: the connected components, in order of their first id. */
  function Components(nodes: seq<Node>, edges: seq<Link>, skip: Option<Id>): (comps: seq<seq<Id>>)
    ensures var g := BuildAdj(nodes, edges, skip);
      && (forall k :: 0 <= k < |comps| ==> IsComponent(g, comps[k]))
      && Disjoint(comps)
      && Covered(comps) == OkIds(nodes, skip)
  {
    var g := BuildAdj(nodes, edges, skip);
    assert g.order[..0] == [];
    CompsLoop(g, 0, {}, [])
  }

  lemma ReachTrans(g: Graph, a: Id, b: Id, c: Id)
    requires Reachable(g, a, b) && Reachable(g, b, c)
    ensures Reachable(g, a, c)
  {
    var p :| IsPath(g, p) && p[0] == a && p[|p| - 1] == b;
    var r :| IsPath(g, r) && r[0] == b && r[|r| - 1] == c;
    var pr := p + r[1..];
    assert forall i :: 0 < i < |pr| && i >= |p| ==> pr[i] == r[i - |p| + 1];
    assert IsPath(g, pr);
  }

  lemma ReachSym(g: Graph, a: Id, b: Id)
    requires WellFormed(g)
    requires Reachable(g, a, b)
    ensures Reachable(g, b, a)
  {
    var p :| IsPath(g, p) && p[0] == a && p[|p| - 1] == b;
    var r := seq(|p|, i requires 0 <= i < |p| => p[|p| - 1 - i]);
    forall i | 0 < i < |r| ensures r[i] in g.adj[r[i - 1]] {
      assert r[i - 1] == p[|p| - i] && r[i] == p[|p| - 1 - i];
      assert p[|p| - i] in g.adj[p[|p| - 1 - i]];
    }
    assert IsPath(g, r);
  }

  /** A walk that starts inside a closed set never leaves it. */
  lemma {:induction false} PathStays(g: Graph, p: seq<Id>, c: set<Id>)
    requires IsPath(g, p) && p[0] in c
    requires forall u, v :: u in c && u in g.adj && v in g.adj[u] ==> v in c
    ensures forall i :: 0 <= i < |p| ==> p[i] in c
    decreases |p|
  {
    if |p| > 1 {
      var q := p[..|p| - 1];
      assert IsPath(g, q);
      PathStays(g, q, c);
      assert p[|p| - 2] == q[|q| - 1];
    }
  }

  /** Every kept id lies in exactly one component. */
  lemma ComponentsPartition(nodes: seq<Node>, edges: seq<Link>, skip: Option<Id>, x: Id)
    ensures var comps := Components(nodes, edges, skip);
      && (x in OkIds(nodes, skip) <==> exists k :: 0 <= k < |comps| && x in comps[k])
      && (forall k, l :: 0 <= k < |comps| && 0 <= l < |comps| && x in comps[k] && x in comps[l] ==> k == l)
  {
    var comps := Components(nodes, edges, skip);
    forall k, l | 0 <= k < |comps| && 0 <= l < |comps| && x in comps[k] && x in comps[l] ensures k == l {
      assert x in Elems(comps[k]) && x in Elems(comps[l]);
    }
  }

  /**
   * Two kept ids share a component exactly when a walk of the adjacency
   * joins them: the components are the connected components.
   */
  lemma ComponentIsReachableSet(nodes: seq<Node>, edges: seq<Link>, skip: Option<Id>, k: int, x: Id, y: Id)
    requires var comps := Components(nodes, edges, skip); 0 <= k < |comps| && x in comps[k]
    ensures var comps := Components(nodes, edges, skip);
      y in comps[k] <==> Reachable(BuildAdj(nodes, edges, skip), x, y)
  {
    var g := BuildAdj(nodes, edges, skip);
    var c := Components(nodes, edges, skip)[k];
    assert IsComponent(g, c);
    if y in c {
      ReachSym(g, c[0], x);
      ReachTrans(g, x, c[0], y);
    }
    if Reachable(g, x, y) {
      var p :| IsPath(g, p) && p[0] == x && p[|p| - 1] == y;
      forall u, v | u in Elems(c) && u in g.adj && v in g.adj[u] ensures v in Elems(c) {
        assert Elems(g.adj[u]) <= Elems(c);
      }
      PathStays(g, p, Elems(c));
    }
  }

  /** No adjacency joins two different components. */
  lemma NoEdgeJoinsComponents(nodes: seq<Node>, edges: seq<Link>, skip: Option<Id>, k: int, l: int, a: Id, b: Id)
    requires var comps := Components(nodes, edges, skip);
      0 <= k < |comps| && 0 <= l < |comps| && a in comps[k] && b in comps[l]
    requires var g := BuildAdj(nodes, edges, skip); a in g.adj && b in g.adj[a]
    ensures k == l
  {
    var comps := Components(nodes, edges, skip);
    var g := BuildAdj(nodes, edges, skip);
    assert IsComponent(g, comps[k]);
    assert b in Elems(g.adj[a]);
    assert b in comps[k];
    ComponentsPartition(nodes, edges, skip, b);
  }

  // ---------------------------------------------------------------------------
  // Articulation points by Tarjan's low-link depth-first search
  // ---------------------------------------------------------------------------

  /**
   * The state `articulationPoints` threads through its search: the clock,
   * discovery and low-link times, the DFS parent of every non-root
   * discovered id, and the cut vertices found so far.
   */
  datatype DfsState = DfsState(time: nat, disc: map<Id, nat>, low: map<Id, nat>, parent: map<Id, Id>, ap: set<Id>)

  /** Two distinct ids both have x as their DFS parent. */
  ghost predicate TwoChildren(st: DfsState, x: Id) {
    exists y1, y2 :: y1 in st.parent && y2 in st.parent && y1 != y2 && st.parent[y1] == x && st.parent[y2] == x
  }

  ghost predicate DfsInv(g: Graph, st: DfsState) {
    && st.disc.Keys <= g.adj.Keys
    && st.low.Keys == st.disc.Keys
    && st.parent.Keys <= st.disc.Keys
    && (forall x :: x in st.parent ==> st.parent[x] in st.disc && st.parent[x] in g.adj[x])
    && (forall x :: x in st.parent ==> st.parent[x] in g.adj && x in g.adj[st.parent[x]])
    && (forall x :: x in st.ap ==> x in st.disc && |g.adj[x]| >= 2)
    && (forall x :: x in st.ap && x !in st.parent ==> TwoChildren(st, x))
  }

  /** The search only adds: discovered ids keep their parent entry, or the lack of one. */
  ghost predicate Grows(st: DfsState, r: DfsState) {
    && st.disc.Keys <= r.disc.Keys
    && st.ap <= r.ap
    && (forall x :: x in st.disc ==> (x in r.parent <==> x in st.parent))
    && (forall x :: x in st.parent ==> x in r.parent && r.parent[x] == st.parent[x])
  }

  lemma TwoDistinct(s: seq<Id>, a: Id, b: Id)
    requires a in s && b in s && a != b
    ensures |s| >= 2
  {
  }

  lemma GrowsTrans(a: DfsState, b: DfsState, c: DfsState)
    requires Grows(a, b) && Grows(b, c)
    ensures Grows(a, c)
  {
  }

  /** Discovering u keeps the invariant. */
  lemma DiscoverFacts(g: Graph, st: DfsState, u: Id, from: Option<Id>, st1: DfsState)
    requires DfsInv(g, st)
    requires u in g.adj && u !in st.disc
    requires from.Some? ==> from.value in st.disc && from.value in g.adj[u] && u in g.adj[from.value]
    requires st1 == DfsState(st.time + 1, st.disc[u := st.time + 1], st.low[u := st.time + 1],
      if from.Some? then st.parent[u := from.value] else st.parent, st.ap)
    ensures DfsInv(g, st1) && Grows(st, st1)
    ensures (u in st1.parent) == from.Some? && (from.Some? ==> st1.parent[u] == from.value)
    ensures |g.adj.Keys - st1.disc.Keys| < |g.adj.Keys - st.disc.Keys|
  {
    CardShrinks(g.adj.Keys, st.disc.Keys, st1.disc.Keys);
    DiscoverGrows(g, st, u, from, st1);
    DiscoverParents(g, st, u, from, st1);
    forall x | x in st1.ap && x !in st1.parent ensures TwoChildren(st1, x) {
      TwoChildrenGrows(st, st1, x);
    }
  }

  lemma DiscoverGrows(g: Graph, st: DfsState, u: Id, from: Option<Id>, st1: DfsState)
    requires DfsInv(g, st)
    requires u in g.adj && u !in st.disc
    requires st1 == DfsState(st.time + 1, st.disc[u := st.time + 1], st.low[u := st.time + 1],
      if from.Some? then st.parent[u := from.value] else st.parent, st.ap)
    ensures Grows(st, st1)
    ensures (u in st1.parent) == from.Some? && (from.Some? ==> st1.parent[u] == from.value)
  {
  }

  lemma DiscoverParents(g: Graph, st: DfsState, u: Id, from: Option<Id>, st1: DfsState)
    requires DfsInv(g, st)
    requires u in g.adj && u !in st.disc
    requires from.Some? ==> from.value in st.disc && from.value in g.adj[u] && u in g.adj[from.value]
    requires st1 == DfsState(st.time + 1, st.disc[u := st.time + 1], st.low[u := st.time + 1],
      if from.Some? then st.parent[u := from.value] else st.parent, st.ap)
    ensures forall x :: x in st1.parent ==> st1.parent[x] in st1.disc && st1.parent[x] in g.adj[x]
    ensures forall x :: x in st1.parent ==> st1.parent[x] in g.adj && x in g.adj[st1.parent[x]]
  {
  }

  lemma TwoChildrenGrows(st: DfsState, r: DfsState, x: Id)
    requires TwoChildren(st, x) && Grows(st, r)
    ensures TwoChildren(r, x)
  {
    var y1, y2 :| y1 in st.parent && y2 in st.parent && y1 != y2 && st.parent[y1] == x && st.parent[y2] == x;
    assert y1 in r.parent && y2 in r.parent && r.parent[y1] == x && r.parent[y2] == x;
  }

  /** Lowering the low-link time of a discovered id keeps the invariant. */
  lemma LowFacts(g: Graph, st: DfsState, u: Id, t: nat)
    requires DfsInv(g, st) && u in st.disc
    ensures DfsInv(g, st.(low := st.low[u := t])) && Grows(st, st.(low := st.low[u := t]))
  {
  }

  /** `parent.set(u, from); dfs(u)`: discover u and scan its neighbours. */
  function Dfs(g: Graph, st: DfsState, u: Id, from: Option<Id>): (r: DfsState)
    requires WellFormed(g) && DfsInv(g, st)
    requires u in g.adj && u !in st.disc
    requires from.Some? ==> from.value in st.disc && from.value in g.adj[u] && u in g.adj[from.value]
    ensures DfsInv(g, r) && Grows(st, r)
    ensures u in r.disc
    ensures (u in r.parent) == from.Some? && (from.Some? ==> r.parent[u] == from.value)
    decreases |g.adj.Keys - st.disc.Keys|, 0, 0
  {
    var t := st.time + 1;
    var st1 := DfsState(t, st.disc[u := t], st.low[u := t],
      if from.Some? then st.parent[u := from.value] else st.parent, st.ap);
    DiscoverFacts(g, st, u, from, st1);
    var r := Scan(g, st1, u, 0, 0);
    GrowsTrans(st, st1, r);
    r
  }

  /**
   * The `for (const v of adj.get(u))` loop of `dfs(u)` from the i-th
   * neighbour on; `child` counts the DFS children found so far.
   */
  function Scan(g: Graph, st: DfsState, u: Id, i: nat, child: nat): (r: DfsState)
    requires WellFormed(g) && DfsInv(g, st)
    requires u in st.disc && i <= |g.adj[u]| && child <= i
    requires child > 0 ==> exists y :: y in st.parent && st.parent[y] == u
    ensures DfsInv(g, r) && Grows(st, r)
    decreases |g.adj.Keys - st.disc.Keys|, 2, |g.adj[u]| - i
  {
    if i == |g.adj[u]| then st
    else
      var v := g.adj[u][i];
      if v !in st.disc then
        var st4 := Child(g, st, u, i, child);
        var r := Scan(g, st4, u, i + 1, child + 1);
        GrowsTrans(st, st4, r);
        r
      else if u !in st.parent || v != st.parent[u] then
        var st1 := st.(low := st.low[u := if st.low[u] <= st.disc[v] then st.low[u] else st.disc[v]]);
        LowFacts(g, st, u, st1.low[u]);
        var r := Scan(g, st1, u, i + 1, child);
        GrowsTrans(st, st1, r);
        r
      else
        Scan(g, st, u, i + 1, child)
  }

  /**
   * After the search from the child v returns: `low[u] = min(low[u],
   * low[v])`, then u is reported when it is a root with more than one
   * child, or a non-root with `low[v] >= disc[u]`.
   */
  function AfterChild(st2: DfsState, u: Id, v: Id, child: nat): DfsState
    requires u in st2.low && u in st2.disc && v in st2.low
  {
    var st3 := st2.(low := st2.low[u := if st2.low[u] <= st2.low[v] then st2.low[u] else st2.low[v]]);
    var isRoot := u !in st3.parent;
    var cut := (isRoot && child + 1 > 1) || (!isRoot && st3.low[v] >= st3.disc[u]);
    if cut then st3.(ap := st3.ap + {u}) else st3
  }

  /**
   * The tree-edge branch of the loop: search the undiscovered i-th
   * neighbour v from u and fold its result into u's entries.
   */
  function Child(g: Graph, st: DfsState, u: Id, i: nat, child: nat): (r: DfsState)
    requires WellFormed(g) && DfsInv(g, st)
    requires u in st.disc && i < |g.adj[u]| && child <= i && g.adj[u][i] !in st.disc
    requires child > 0 ==> exists y :: y in st.parent && st.parent[y] == u
    ensures DfsInv(g, r) && Grows(st, r)
    ensures |g.adj.Keys - r.disc.Keys| < |g.adj.Keys - st.disc.Keys|
    ensures exists y :: y in r.parent && r.parent[y] == u
    decreases |g.adj.Keys - st.disc.Keys|, 1, 0
  {
    var v := g.adj[u][i];
    assert u in g.adj && v in g.adj[u];
    var st2 := Dfs(g, st, v, Some(u));
    ChildFacts(g, st, u, i, child, st2);
    ChildProgress(g, st, u, i, child, st2);
    AfterChild(st2, u, v, child)
  }

  lemma ChildFacts(g: Graph, st: DfsState, u: Id, i: nat, child: nat, st2: DfsState)
    requires DfsInv(g, st)
    requires u in st.disc && i < |g.adj[u]| && child <= i
    requires child > 0 ==> exists y :: y in st.parent && st.parent[y] == u
    requires g.adj[u][i] !in st.disc
    requires DfsInv(g, st2) && Grows(st, st2)
    requires g.adj[u][i] in st2.disc && g.adj[u][i] in st2.parent && st2.parent[g.adj[u][i]] == u
    ensures u in st2.low && u in st2.disc && g.adj[u][i] in st2.low
    ensures var r := AfterChild(st2, u, g.adj[u][i], child);
      DfsInv(g, r) && Grows(st, r)
  {
    var v := g.adj[u][i];
    var st3 := st2.(low := st2.low[u := if st2.low[u] <= st2.low[v] then st2.low[u] else st2.low[v]]);
    LowFacts(g, st2, u, st3.low[u]);
    GrowsTrans(st, st2, st3);
    var r := AfterChild(st2, u, v, child);
    if r != st3 {
      assert r == st3.(ap := st3.ap + {u});
      CutFacts(g, st, st3, u, v, child);
      GrowsTrans(st, st3, r);
    }
  }

  /** The search from the child discovered at least one more id, and the child's parent is u. */
  lemma ChildProgress(g: Graph, st: DfsState, u: Id, i: nat, child: nat, st2: DfsState)
    requires DfsInv(g, st)
    requires u in st.disc && i < |g.adj[u]|
    requires g.adj[u][i] !in st.disc
    requires DfsInv(g, st2) && Grows(st, st2)
    requires g.adj[u][i] in st2.disc && g.adj[u][i] in st2.parent && st2.parent[g.adj[u][i]] == u
    ensures u in st2.low && u in st2.disc && g.adj[u][i] in st2.low
    ensures var r := AfterChild(st2, u, g.adj[u][i], child);
      && |g.adj.Keys - r.disc.Keys| < |g.adj.Keys - st.disc.Keys|
      && exists y :: y in r.parent && r.parent[y] == u
  {
    var v := g.adj[u][i];
    var r := AfterChild(st2, u, v, child);
    CardShrinks(g.adj.Keys, st.disc.Keys, r.disc.Keys);
    assert v in r.parent && r.parent[v] == u;
  }

  /**
   * Reporting u after the search of its child v keeps the invariant: a
   * non-root u has its parent and v as two neighbours, a root u has found
   * an earlier child besides v.
   */
  lemma CutFacts(g: Graph, st: DfsState, st3: DfsState, u: Id, v: Id, child: nat)
    requires DfsInv(g, st) && DfsInv(g, st3) && Grows(st, st3)
    requires u in st.disc && u in g.adj && v in g.adj[u] && v !in st.disc
    requires v in st3.parent && st3.parent[v] == u
    requires u !in st3.parent ==> child > 0
    requires child > 0 ==> exists y :: y in st.parent && st.parent[y] == u
    ensures DfsInv(g, st3.(ap := st3.ap + {u})) && Grows(st3, st3.(ap := st3.ap + {u}))
  {
    if u in st3.parent {
      assert u in st.parent;
      var p := st.parent[u];
      assert p in st.disc && p in g.adj[u];
      TwoDistinct(g.adj[u], p, v);
      ReportFacts(g, st3, u);
    } else {
      var y :| y in st.parent && st.parent[y] == u;
      assert y in st.disc;
      assert y != v;
      assert u in g.adj && y in g.adj[u];
      TwoDistinct(g.adj[u], y, v);
      assert y in st3.parent && v in st3.parent;
      assert TwoChildren(st3, u);
      ReportFacts(g, st3, u);
    }
  }

  /** Adding u to the reported set keeps the invariant when u is entitled to it. */
  lemma ReportFacts(g: Graph, st: DfsState, u: Id)
    requires DfsInv(g, st) && u in st.disc && u in g.adj && |g.adj[u]| >= 2
    requires u !in st.parent ==> TwoChildren(st, u)
    ensures DfsInv(g, st.(ap := st.ap + {u})) && Grows(st, st.(ap := st.ap + {u}))
  {
    var r := st.(ap := st.ap + {u});
    forall x | x in r.ap && x !in r.parent ensures TwoChildren(r, x) {
      TwoChildrenGrows(st, r, x);
    }
  }

  /** The outer `for (const id of adj.keys()) if (!disc.has(id)) dfs(id)` loop. */
  function DfsAll(g: Graph, i: nat, st: DfsState): (r: DfsState)
    requires WellFormed(g) && DfsInv(g, st)
    requires i <= |g.order|
    ensures DfsInv(g, r) && Grows(st, r)
    decreases |g.order| - i
  {
    if i == |g.order| then st
    else if g.order[i] in st.disc then DfsAll(g, i + 1, st)
    else DfsAll(g, i + 1, Dfs(g, st, g.order[i], None))
  }

  /** The final state of the search over the full graph. */
  function Tarjan(nodes: seq<Node>, edges: seq<Link>): (st: DfsState)
    ensures DfsInv(BuildAdj(nodes, edges, None), st)
  {
    var g := BuildAdj(nodes, edges, None);
    DfsAll(g, 0, DfsState(0, map[], map[], map[], {}))
  }

  /**
   * `articulationPoints(nodes, edges)`. Every reported id is a node with
   * at least two distinct neighbours, and a reported DFS root has at least
   * two DFS children.
   */
  function ArticulationPoints(nodes: seq<Node>, edges: seq<Link>): (ap: set<Id>)
    ensures var g := BuildAdj(nodes, edges, None);
      forall x :: x in ap ==> x in OkIds(nodes, None) && |g.adj[x]| >= 2
    ensures var st := Tarjan(nodes, edges);
      forall x :: x in ap && x !in st.parent ==> TwoChildren(st, x)
  {
    Tarjan(nodes, edges).ap
  }

  // ---------------------------------------------------------------------------
  // Reachable zone pairs
  // ---------------------------------------------------------------------------

  /**
   * `byId.get(id)?.zone` where `byId = new Map(nodes.map(n => [n.id, n]))`:
   * the zone of the last node listing id, and none when no node does.
   */
  function ZoneOf(nodes: seq<Node>, id: Id): (z: Option<string>)
    ensures (forall j :: 0 <= j < |nodes| ==> nodes[j].id != id) ==> z == None
    ensures forall j :: 0 <= j < |nodes| && nodes[j].id == id && LastWith(nodes, id, j) ==> z == nodes[j].zone
  {
    ZoneAmong(nodes, id, |nodes|)
  }

  /** No node after position j lists id. */
  ghost predicate LastWith(nodes: seq<Node>, id: Id, j: int) {
    forall k :: j < k < |nodes| && 0 <= k ==> nodes[k].id != id
  }

  /** The lookup restricted to the first n nodes. */
  function ZoneAmong(nodes: seq<Node>, id: Id, n: nat): (z: Option<string>)
    requires n <= |nodes|
    ensures (forall j :: 0 <= j < n ==> nodes[j].id != id) ==> z == None
    ensures forall j :: (0 <= j < n && nodes[j].id == id && (forall k :: j < k < n ==> nodes[k].id != id)
      ==> z == nodes[j].zone)
  {
    if n == 0 then None
    else if nodes[n - 1].id == id then nodes[n - 1].zone
    else ZoneAmong(nodes, id, n - 1)
  }

  /** The zone survives `.filter(Boolean)`: it is present and not the empty string. */
  predicate Truthy(z: Option<string>) {
    z.Some? && z.value != ""
  }

  /**
   * `[...new Set(comp.map(id => byId.get(id)?.zone).filter(Boolean))]`:
   * the distinct truthy zones of a component's ids, in order of first
   * appearance.
   */
  function CompZones(nodes: seq<Node>, comp: seq<Id>): (zs: seq<string>)
    ensures NoDup(zs)
    ensures forall z :: z in zs <==> exists id :: id in comp && ZoneOf(nodes, id) == Some(z) && z != ""
  {
    var zs := ZonesUpTo(nodes, comp, |comp|);
    assert forall id :: id in comp <==> exists i :: 0 <= i < |comp| && comp[i] == id;
    zs
  }

  /** The distinct truthy zones of the first n ids of comp. */
  function ZonesUpTo(nodes: seq<Node>, comp: seq<Id>, n: nat): (zs: seq<string>)
    requires n <= |comp|
    ensures NoDup(zs)
    ensures forall z :: z in zs <==> exists i :: 0 <= i < n && ZoneOf(nodes, comp[i]) == Some(z) && z != ""
  {
    if n == 0 then []
    else
      var pre := ZonesUpTo(nodes, comp, n - 1);
      var z := ZoneOf(nodes, comp[n - 1]);
      if Truthy(z) && z.value !in pre then pre + [z.value] else pre
  }

  /** JavaScript's `a <= b` on strings: lexicographic order of the characters. */
  predicate LexLe(a: string, b: string) {
    |a| == 0 || (|b| > 0 && (a[0] < b[0] || (a[0] == b[0] && LexLe(a[1..], b[1..]))))
  }

  lemma {:induction false} LexTotal(a: string, b: string)
    ensures LexLe(a, b) || LexLe(b, a)
  {
    if |a| > 0 && |b| > 0 && a[0] == b[0] {
      LexTotal(a[1..], b[1..]);
    }
  }

  lemma {:induction false} LexAntisymmetric(a: string, b: string)
    requires LexLe(a, b) && LexLe(b, a)
    ensures a == b
  {
    if |a| > 0 && |b| > 0 {
      LexAntisymmetric(a[1..], b[1..]);
      assert a == [a[0]] + a[1..] && b == [b[0]] + b[1..];
    }
  }

  /** `key(a, b)`: the two zones joined by "|", the lexicographically smaller first. */
  function Key(a: string, b: string): string {
    if LexLe(a, b) then a + "|" + b else b + "|" + a
  }

  /** The key holds both zones around the bar, in one order or the other. */
  lemma KeyShape(a: string, b: string)
    ensures Key(a, b) == a + "|" + b || Key(a, b) == b + "|" + a
  {
  }

  /** The key does not depend on the order of its two zones. */
  lemma KeySymmetric(a: string, b: string)
    ensures Key(a, b) == Key(b, a)
  {
    LexTotal(a, b);
    if LexLe(a, b) && LexLe(b, a) {
      LexAntisymmetric(a, b);
    }
  }

  /** The two nested loops over `zones`: the key of every pair i < j. */
  function Pairs(zs: seq<string>): (r: set<string>)
    ensures forall k :: k in r <==> exists i, j :: 0 <= i < j < |zs| && k == Key(zs[i], zs[j])
  {
    forall k ensures k in PairsUpTo(zs, |zs|) <==> exists i, j :: 0 <= i < j < |zs| && k == Key(zs[i], zs[j]) {
      PairsUpToMembers(zs, |zs|, k);
    }
    PairsUpTo(zs, |zs|)
  }

  /** The keys of the pairs i < j < n. */
  function PairsUpTo(zs: seq<string>, n: nat): set<string>
    requires n <= |zs|
  {
    if n == 0 then {} else PairsUpTo(zs, n - 1) + PairsEndingAt(zs, n - 1)
  }

  /** The keys of the pairs i < j for one j: the inner loop's pass. */
  function PairsEndingAt(zs: seq<string>, j: nat): set<string>
    requires j < |zs|
  {
    set i | 0 <= i < j :: Key(zs[i], zs[j])
  }

  lemma PairsUpToMembers(zs: seq<string>, n: nat, k: string)
    requires n <= |zs|
    ensures k in PairsUpTo(zs, n) <==> exists i, j :: 0 <= i < j < n && k == Key(zs[i], zs[j])
  {
    if k in PairsUpTo(zs, n) {
      var i, j := PairOfKey(zs, n, k);
    }
    if exists i, j :: 0 <= i < j < n && k == Key(zs[i], zs[j]) {
      var i, j :| 0 <= i < j < n && k == Key(zs[i], zs[j]);
      KeyOfPair(zs, n, i, j);
    }
  }

  /** A key found by the loops comes from some pair i < j < n. */
  lemma {:induction false} PairOfKey(zs: seq<string>, n: nat, k: string) returns (i: nat, j: nat)
    requires n <= |zs| && k in PairsUpTo(zs, n)
    ensures i < j < n && k == Key(zs[i], zs[j])
  {
    if k in PairsEndingAt(zs, n - 1) {
      i :| 0 <= i < n - 1 && k == Key(zs[i], zs[n - 1]);
      j := n - 1;
    } else {
      i, j := PairOfKey(zs, n - 1, k);
    }
  }

  /** Every pair i < j < n has its key found by the loops. */
  lemma {:induction false} KeyOfPair(zs: seq<string>, n: nat, i: nat, j: nat)
    requires i < j < n <= |zs|
    ensures Key(zs[i], zs[j]) in PairsUpTo(zs, n)
  {
    if j == n - 1 {
      assert Key(zs[i], zs[n - 1]) in PairsEndingAt(zs, n - 1);
    } else {
      KeyOfPair(zs, n - 1, i, j);
    }
  }

  /**
   * Over distinct zones the loops produce exactly the keys of the unordered
   * pairs of two different zones: no zone is paired with itself.
   */
  lemma PairsMeaning(zs: seq<string>, k: string)
    requires NoDup(zs)
    ensures k in Pairs(zs) <==> exists a, b :: a in zs && b in zs && a != b && k == Key(a, b)
  {
    if exists a, b :: a in zs && b in zs && a != b && k == Key(a, b) {
      var a, b :| a in zs && b in zs && a != b && k == Key(a, b);
      var i :| 0 <= i < |zs| && zs[i] == a;
      var j :| 0 <= j < |zs| && zs[j] == b;
      if j < i {
        KeySymmetric(a, b);
      }
    }
  }

  /** The union of the first n sets. */
  function UnionUpTo(sets: seq<set<string>>, n: nat): set<string>
    requires n <= |sets|
  {
    if n == 0 then {} else UnionUpTo(sets, n - 1) + sets[n - 1]
  }

  lemma {:induction false} UnionUpToMembers(sets: seq<set<string>>, n: nat, k: string)
    requires n <= |sets|
    ensures k in UnionUpTo(sets, n) <==> exists c :: 0 <= c < n && k in sets[c]
  {
    if n > 0 {
      UnionUpToMembers(sets, n - 1, k);
    }
  }

  /** `reachableZonePairs(nodes, edges, skipId)`: a key is reported when some component's zones produce it. */
  function ReachableZonePairs(nodes: seq<Node>, edges: seq<Link>, skip: Option<Id>): (r: set<string>)
    ensures var comps := Components(nodes, edges, skip);
      forall k :: k in r <==> exists c :: 0 <= c < |comps| && k in Pairs(CompZones(nodes, comps[c]))
  {
    var comps := Components(nodes, edges, skip);
    UnionUpToAll(PerComponentPairs(nodes, comps), |comps|);
    UnionUpTo(PerComponentPairs(nodes, comps), |comps|)
  }

  /** A key is in the union exactly when it is in one of the sets. */
  lemma UnionUpToAll(sets: seq<set<string>>, n: nat)
    requires n <= |sets|
    ensures forall k :: k in UnionUpTo(sets, n) <==> exists c :: 0 <= c < n && k in sets[c]
  {
    forall k ensures k in UnionUpTo(sets, n) <==> exists c :: 0 <= c < n && k in sets[c] {
      UnionUpToMembers(sets, n, k);
    }
  }

  function PerComponentPairs(nodes: seq<Node>, comps: seq<seq<Id>>): (r: seq<set<string>>)
    ensures |r| == |comps| && forall c :: 0 <= c < |comps| ==> r[c] == Pairs(CompZones(nodes, comps[c]))
  {
    seq(|comps|, c requires 0 <= c < |comps| => Pairs(CompZones(nodes, comps[c])))
  }

  /** A walk of g joins an id with truthy zone a to an id with truthy zone b. */
  ghost predicate ZonesMeet(nodes: seq<Node>, g: Graph, a: string, b: string) {
    exists x, y :: x in g.adj && Reachable(g, x, y) && ZoneOf(nodes, x) == Some(a) && ZoneOf(nodes, y) == Some(b)
  }

  /**
   * The keys `reachableZonePairs` reports are exactly those of two
   * different non-empty zones that some walk of the adjacency connects.
   */
  lemma ReachableZonePairsMeaning(nodes: seq<Node>, edges: seq<Link>, skip: Option<Id>, k: string)
    ensures k in ReachableZonePairs(nodes, edges, skip) <==>
      exists a, b :: a != b && a != "" && b != "" && k == Key(a, b) && ZonesMeet(nodes, BuildAdj(nodes, edges, skip), a, b)
  {
    var g := BuildAdj(nodes, edges, skip);
    if k in ReachableZonePairs(nodes, edges, skip) {
      PairToMeeting(nodes, edges, skip, k);
    }
    if exists a, b :: a != b && a != "" && b != "" && k == Key(a, b) && ZonesMeet(nodes, g, a, b) {
      var a, b :| a != b && a != "" && b != "" && k == Key(a, b) && ZonesMeet(nodes, g, a, b);
      MeetingToPair(nodes, edges, skip, a, b);
    }
  }

  lemma PairToMeeting(nodes: seq<Node>, edges: seq<Link>, skip: Option<Id>, k: string)
    requires k in ReachableZonePairs(nodes, edges, skip)
    ensures exists a, b :: a != b && a != "" && b != "" && k == Key(a, b) && ZonesMeet(nodes, BuildAdj(nodes, edges, skip), a, b)
  {
    var g := BuildAdj(nodes, edges, skip);
    var comps := Components(nodes, edges, skip);
    var c :| 0 <= c < |comps| && k in Pairs(CompZones(nodes, comps[c]));
    var zs := CompZones(nodes, comps[c]);
    PairsMeaning(zs, k);
    var a, b :| a in zs && b in zs && a != b && k == Key(a, b);
    var x :| x in comps[c] && ZoneOf(nodes, x) == Some(a) && a != "";
    var y :| y in comps[c] && ZoneOf(nodes, y) == Some(b) && b != "";
    ComponentIsReachableSet(nodes, edges, skip, c, x, y);
    ComponentIds(nodes, edges, skip, c, x);
    assert ZonesMeet(nodes, g, a, b);
  }

  lemma MeetingToPair(nodes: seq<Node>, edges: seq<Link>, skip: Option<Id>, a: string, b: string)
    requires a != b && a != "" && b != "" && ZonesMeet(nodes, BuildAdj(nodes, edges, skip), a, b)
    ensures Key(a, b) in ReachableZonePairs(nodes, edges, skip)
  {
    var g := BuildAdj(nodes, edges, skip);
    var comps := Components(nodes, edges, skip);
    var x, y :| x in g.adj && Reachable(g, x, y) && ZoneOf(nodes, x) == Some(a) && ZoneOf(nodes, y) == Some(b);
    assert x in Elems(g.order);
    ComponentsPartition(nodes, edges, skip, x);
    var c :| 0 <= c < |comps| && x in comps[c];
    ComponentIsReachableSet(nodes, edges, skip, c, x, y);
    var zs := CompZones(nodes, comps[c]);
    assert a in zs && b in zs;
    PairsMeaning(zs, Key(a, b));
  }

  /** The ids of a component are ids of the graph. */
  lemma ComponentIds(nodes: seq<Node>, edges: seq<Link>, skip: Option<Id>, c: int, x: Id)
    requires var comps := Components(nodes, edges, skip); 0 <= c < |comps| && x in comps[c]
    ensures x in BuildAdj(nodes, edges, skip).adj
  {
    var comps := Components(nodes, edges, skip);
    assert IsComponent(BuildAdj(nodes, edges, skip), comps[c]);
    assert x in Elems(comps[c]);
  }

  /** Every adjacency of the graph without `skip` is one of the full graph. */
  lemma EdgeWithoutSkip(nodes: seq<Node>, edges: seq<Link>, skip: Id, a: Id, b: Id)
    requires var ga := BuildAdj(nodes, edges, Some(skip)); a in ga.adj && b in ga.adj[a]
    ensures var gb := BuildAdj(nodes, edges, None); a in gb.adj && b in gb.adj[a]
  {
    AdjacencyFacts(nodes, edges, Some(skip), a, b);
    AdjacencyFacts(nodes, edges, None, a, b);
  }

  /** Every walk of the graph without `skip` is a walk of the full graph. */
  lemma ReachWithoutSkip(nodes: seq<Node>, edges: seq<Link>, skip: Id, x: Id, y: Id)
    requires Reachable(BuildAdj(nodes, edges, Some(skip)), x, y)
    ensures Reachable(BuildAdj(nodes, edges, None), x, y)
  {
    var ga := BuildAdj(nodes, edges, Some(skip));
    var gb := BuildAdj(nodes, edges, None);
    var p :| IsPath(ga, p) && p[0] == x && p[|p| - 1] == y;
    forall i | 0 <= i < |p| ensures p[i] in gb.adj {
      assert p[i] in Elems(ga.order);
    }
    forall i | 0 < i < |p| ensures p[i] in gb.adj[p[i - 1]] {
      EdgeWithoutSkip(nodes, edges, skip, p[i - 1], p[i]);
    }
    assert IsPath(gb, p);
  }

  /** Removing a node can only lose zone pairs, never create one. */
  lemma PairsAfterRemovalShrink(nodes: seq<Node>, edges: seq<Link>, removeId: Id)
    ensures ReachableZonePairs(nodes, edges, Some(removeId)) <= ReachableZonePairs(nodes, edges, None)
  {
    forall k | k in ReachableZonePairs(nodes, edges, Some(removeId))
      ensures k in ReachableZonePairs(nodes, edges, None)
    {
      PairSurvivesRemoval(nodes, edges, removeId, k);
    }
  }

  /** A zone pair that still meets without the id met with it. */
  lemma PairSurvivesRemoval(nodes: seq<Node>, edges: seq<Link>, removeId: Id, k: string)
    requires k in ReachableZonePairs(nodes, edges, Some(removeId))
    ensures k in ReachableZonePairs(nodes, edges, None)
  {
    var ga := BuildAdj(nodes, edges, Some(removeId));
    ReachableZonePairsMeaning(nodes, edges, Some(removeId), k);
    var a, b :| a != b && a != "" && b != "" && k == Key(a, b) && ZonesMeet(nodes, ga, a, b);
    MeetWithoutSkip(nodes, edges, removeId, a, b);
    ReachableZonePairsMeaning(nodes, edges, None, k);
  }

  /** Two zones that meet without the id meet with it. */
  lemma MeetWithoutSkip(nodes: seq<Node>, edges: seq<Link>, removeId: Id, a: string, b: string)
    requires ZonesMeet(nodes, BuildAdj(nodes, edges, Some(removeId)), a, b)
    ensures ZonesMeet(nodes, BuildAdj(nodes, edges, None), a, b)
  {
    var ga := BuildAdj(nodes, edges, Some(removeId));
    var x, y :| x in ga.adj && Reachable(ga, x, y) && ZoneOf(nodes, x) == Some(a) && ZoneOf(nodes, y) == Some(b);
    ReachWithoutSkip(nodes, edges, removeId, x, y);
    assert x in Elems(ga.order);
  }

  // ---------------------------------------------------------------------------
  // Offline impact
  // ---------------------------------------------------------------------------

  /** The link has the id as one of its endpoints. */
  predicate Touches(e: Link, id: Id) {
    e.source == id || e.target == id
  }

  /** The positions among the first n links of those touching id. */
  ghost function TouchingAt(edges: seq<Link>, id: Id, n: nat): set<int> {
    set i | 0 <= i < n && i < |edges| && Touches(edges[i], id)
  }

  /** `edges.filter(e => e.source === removeId || e.target === removeId).length`, over the first n links. */
  function CountTouching(edges: seq<Link>, id: Id, n: nat): (c: nat)
    requires n <= |edges|
    ensures c == |TouchingAt(edges, id, n)|
    ensures c <= n
  {
    if n == 0 then
      assert TouchingAt(edges, id, 0) == {};
      0
    else
      var c0 := CountTouching(edges, id, n - 1);
      var s0 := TouchingAt(edges, id, n - 1);
      assert n - 1 !in s0;
      if Touches(edges[n - 1], id) then
        assert TouchingAt(edges, id, n) == s0 + {n - 1};
        c0 + 1
      else
        assert TouchingAt(edges, id, n) == s0;
        c0
  }

  /**
   * `compsAfter.reduce((m, c) => c.length > m.length ? c : m, [])` over the
   * first n components: the first component of greatest length.
   */
  function LargestUpTo(comps: seq<seq<Id>>, n: nat): (m: seq<Id>)
    requires n <= |comps|
    ensures forall c :: 0 <= c < n ==> |comps[c]| <= |m|
    ensures n == 0 ==> m == []
    ensures n > 0 ==> exists c :: 0 <= c < n && m == comps[c] && forall d :: 0 <= d < c ==> |comps[d]| < |m|
  {
    if n == 0 then []
    else
      var m := LargestUpTo(comps, n - 1);
      if |comps[n - 1]| > |m| then comps[n - 1]
      else
        assert n == 1 ==> m == [] && comps[0] == [];
        m
  }

  function Largest(comps: seq<seq<Id>>): (m: seq<Id>)
    ensures forall c :: 0 <= c < |comps| ==> |comps[c]| <= |m|
    ensures |comps| == 0 ==> m == []
    ensures |comps| > 0 ==> exists c :: 0 <= c < |comps| && m == comps[c] && forall d :: 0 <= d < c ==> |comps[d]| < |m|
  {
    LargestUpTo(comps, |comps|)
  }

  /** `[...allIds].filter(id => id !== removeId && !still.has(id))`. */
  function Disconnected(ids: seq<Id>, removeId: Id, still: seq<Id>): (r: seq<Id>)
    ensures forall x :: x in r <==> x in ids && x != removeId && x !in still
    ensures NoDup(ids) ==> NoDup(r)
  {
    if |ids| == 0 then []
    else
      var rest := Disconnected(ids[1..], removeId, still);
      assert forall x :: x in ids <==> x == ids[0] || x in ids[1..];
      if ids[0] != removeId && ids[0] !in still then [ids[0]] + rest else rest
  }

  /** The report `offlineImpact` returns. */
  datatype Impact = Impact(isSpof: bool, disconnected: seq<Id>, lostZoneBridges: nat, cutEdges: nat)

  /**
   * `offlineImpact(nodes, edges, removeId)`; `None` stands for an absent
   * id, and an absent or empty id yields the all-zero report.
   */
  function OfflineImpact(nodes: seq<Node>, edges: seq<Link>, removeId: Option<Id>): (r: Impact)
    ensures removeId.None? || removeId == Some("") ==> r == Impact(false, [], 0, 0)
    ensures removeId.Some? && removeId.value != "" ==>
      && r.cutEdges == |TouchingAt(edges, removeId.value, |edges|)|
      && r.lostZoneBridges == |ReachableZonePairs(nodes, edges, None) - ReachableZonePairs(nodes, edges, Some(removeId.value))|
      && removeId.value !in r.disconnected
  {
    if removeId.None? || removeId.value == "" then Impact(false, [], 0, 0)
    else
      var id := removeId.value;
      var before := ReachableZonePairs(nodes, edges, None);
      var after := ReachableZonePairs(nodes, edges, Some(id));
      var largest := Largest(Components(nodes, edges, Some(id)));
      Impact(id in ArticulationPoints(nodes, edges),
             Disconnected(OkOrder(nodes, None), id, largest),
             |before - after|,
             CountTouching(edges, id, |edges|))
  }

  /** An absent or empty id reports no impact at all. */
  lemma NoIdNoImpact(nodes: seq<Node>, edges: seq<Link>, removeId: Option<Id>)
    requires removeId.None? || removeId == Some("")
    ensures OfflineImpact(nodes, edges, removeId) == Impact(false, [], 0, 0)
  {
  }

  /** The lost zone bridges are the pairs lost by the removal: at most the pairs there were before. */
  lemma LostBridgesBound(nodes: seq<Node>, edges: seq<Link>, id: Id)
    requires id != ""
    ensures var before := ReachableZonePairs(nodes, edges, None);
      var after := ReachableZonePairs(nodes, edges, Some(id));
      && OfflineImpact(nodes, edges, Some(id)).lostZoneBridges == |before| - |after|
      && OfflineImpact(nodes, edges, Some(id)).lostZoneBridges <= |before|
  {
    var before := ReachableZonePairs(nodes, edges, None);
    var after := ReachableZonePairs(nodes, edges, Some(id));
    PairsAfterRemovalShrink(nodes, edges, id);
    assert before == after + (before - after);
    assert after !! (before - after);
  }

  /**
   * `disconnected` leaves out the removed id and the largest remaining
   * component, and with that component covers every other node id.
   */
  lemma DisconnectedSplit(nodes: seq<Node>, edges: seq<Link>, id: Id, x: Id)
    requires id != ""
    ensures var r := OfflineImpact(nodes, edges, Some(id));
      var largest := Largest(Components(nodes, edges, Some(id)));
      && (x in r.disconnected <==> x in OkIds(nodes, None) && x != id && x !in largest)
      && NoDup(r.disconnected)
  {
  }

  lemma OkIdsSkip(nodes: seq<Node>, id: Id, x: Id)
    ensures x in OkIds(nodes, Some(id)) <==> x in OkIds(nodes, None) && x != id
  {
  }

  /**
   * When some id survives the removal, the disconnected ids are exactly the
   * surviving ids that no walk of the remaining graph joins to the largest
   * remaining component.
   */
  lemma DisconnectedUnreachable(nodes: seq<Node>, edges: seq<Link>, id: Id, x: Id)
    requires id != ""
    requires |Components(nodes, edges, Some(id))| > 0
    ensures var largest := Largest(Components(nodes, edges, Some(id)));
      && |largest| > 0
      && (x in OfflineImpact(nodes, edges, Some(id)).disconnected <==>
            x in OkIds(nodes, Some(id)) && !Reachable(BuildAdj(nodes, edges, Some(id)), largest[0], x))
  {
    var comps := Components(nodes, edges, Some(id));
    var g := BuildAdj(nodes, edges, Some(id));
    DisconnectedSplit(nodes, edges, id, x);
    OkIdsSkip(nodes, id, x);
    var c :| 0 <= c < |comps| && Largest(comps) == comps[c] && forall d :: 0 <= d < c ==> |comps[d]| < |Largest(comps)|;
    assert IsComponent(g, comps[c]);
    ComponentIsReachableSet(nodes, edges, Some(id), c, comps[c][0], x);
    ComponentReach(nodes, edges, Some(id), c, x);
  }

  /** A kept id outside a component is not reachable from its first member. */
  lemma ComponentReach(nodes: seq<Node>, edges: seq<Link>, skip: Option<Id>, c: int, x: Id)
    requires var comps := Components(nodes, edges, skip); 0 <= c < |comps|
    ensures var comps := Components(nodes, edges, skip);
      |comps[c]| > 0 && (x in comps[c] <==> Reachable(BuildAdj(nodes, edges, skip), comps[c][0], x))
  {
    var comps := Components(nodes, edges, skip);
    assert IsComponent(BuildAdj(nodes, edges, skip), comps[c]);
    ComponentIsReachableSet(nodes, edges, skip, c, comps[c][0], x);
  }

  /** The removed id is reported as a single point of failure only when it is a cut vertex candidate: a node with two or more neighbours. */
  lemma SpofHasTwoNeighbours(nodes: seq<Node>, edges: seq<Link>, id: Id)
    requires id != "" && OfflineImpact(nodes, edges, Some(id)).isSpof
    ensures var g := BuildAdj(nodes, edges, None); id in OkIds(nodes, None) && |g.adj[id]| >= 2
  {
  }

  /**
   * A non-empty id that names no node is not an "unknown id, no impact"
   * case: it is no SPOF, yet every component but the largest is reported
   * as disconnected.
   */
  lemma UnknownIdStillDisconnects(nodes: seq<Node>, edges: seq<Link>, id: Id)
    requires id != "" && forall j :: 0 <= j < |nodes| ==> nodes[j].id != id
    requires |Components(nodes, edges, Some(id))| >= 2
    ensures !OfflineImpact(nodes, edges, Some(id)).isSpof
    ensures |OfflineImpact(nodes, edges, Some(id)).disconnected| > 0
  {
    var comps := Components(nodes, edges, Some(id));
    var largest := Largest(comps);
    var c :| 0 <= c < |comps| && largest == comps[c] && forall d :: 0 <= d < c ==> |comps[d]| < |largest|;
    var d := if c == 0 then 1 else 0;
    var g := BuildAdj(nodes, edges, Some(id));
    assert IsComponent(g, comps[d]) && IsComponent(g, comps[c]);
    var x := comps[d][0];
    assert x in Elems(comps[d]);
    if d < c {
      assert Elems(comps[d]) !! Elems(comps[c]);
    } else {
      assert Elems(comps[c]) !! Elems(comps[d]);
    }
    assert x !in largest;
    assert x in OkIds(nodes, Some(id));
    OkIdsSkip(nodes, id, x);
    DisconnectedSplit(nodes, edges, id, x);
    assert x in OfflineImpact(nodes, edges, Some(id)).disconnected;
  }
}
