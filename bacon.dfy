/**
 * The actor graph and its breadth-first searches from Kevin Bacon
 * (labs/lab2/lab.py).  A database is a list of (actor, actor, film)
 * records; two actors are adjacent when some record names them together.
 */
module Bacon {
  import opened Wrappers

  /** `BACON_NUMBER`: the actor id every search starts from. */
  const BaconId: int := 4724

  datatype Record = Record(id1: int, id2: int, film: int)

  /** An undirected graph as the source builds it: actor id to the set of its co-stars. */
  type Graph = map<int, set<int>>

  /** The record names actors `a` and `b`, in either order. */
  predicate Pairs(r: Record, a: int, b: int) {
    (r.id1 == a && r.id2 == b) || (r.id1 == b && r.id2 == a)
  }

  /** Actor `a` is named by some record. */
  ghost predicate Occurs(data: seq<Record>, a: int) {
    exists i :: 0 <= i < |data| && (data[i].id1 == a || data[i].id2 == a)
  }

  // ---------------------------------------------------------------------
  // Dictionary helpers
  // ---------------------------------------------------------------------

  /** `did_x_and_y_act_together`: some record pairs the two actors. */
  function DidActTogether(data: seq<Record>, a: int, b: int): (r: bool)
    ensures r <==> exists i :: 0 <= i < |data| && Pairs(data[i], a, b)
  {
    if data == [] then false
    else if Pairs(data[0], a, b) then true
    else
      var rest := DidActTogether(data[1..], a, b);
      assert rest ==> exists i :: 0 <= i < |data| && Pairs(data[i], a, b) by {
        if rest {
          var j :| 0 <= j < |data[1..]| && Pairs(data[1..][j], a, b);
          assert Pairs(data[j + 1], a, b);
        }
      }
      assert (exists i :: 0 <= i < |data| && Pairs(data[i], a, b)) ==> rest by {
        if exists i :: 0 <= i < |data| && Pairs(data[i], a, b) {
          var j :| 0 <= j < |data| && Pairs(data[j], a, b);
          assert j != 0;
          assert Pairs(data[1..][j - 1], a, b);
        }
      }
      rest
  }

  /** Acting together is symmetric in the two actors. */
  lemma ActedTogetherSymmetric(data: seq<Record>, a: int, b: int)
    ensures DidActTogether(data, a, b) == DidActTogether(data, b, a)
  {
  }

  ghost predicate Injective<K, V>(d: map<K, V>) {
    forall k, k' :: k in d && k' in d && k != k' ==> d[k] != d[k']
  }

  /**
   * `invert_dict`: keys and values swap places.  When several keys share a
   * value, Python keeps the one inserted last; this model picks one of them.
   */
  ghost function InvertDict<K, V>(d: map<K, V>): (r: map<V, K>)
    ensures r.Keys == d.Values
    ensures forall v :: v in r ==> r[v] in d && d[r[v]] == v
  {
    map v | v in d.Values :: var k :| k in d && d[k] == v; k
  }

  /** For a dictionary without repeated values, inverting twice gives it back. */
  lemma InvertTwice<K, V>(d: map<K, V>)
    requires Injective(d)
    ensures InvertDict(InvertDict(d)) == d
  {
    var inv := InvertDict(d);
    var back := InvertDict(inv);
    forall k | k in d ensures k in back && back[k] == d[k] {
      assert d[k] in inv;
      assert inv[d[k]] == k;
      assert k in inv.Values;
    }
    assert back.Keys == d.Keys;
  }

  /** `get_value`: the value under `key`, or None where Python raises KeyError. */
  function GetValue<K, V>(d: map<K, V>, key: K): (r: Option<V>)
    ensures r.Some? <==> key in d
    ensures r.Some? ==> r.value == d[key]
  {
    if key in d then Some(d[key]) else None
  }

  /** Looking up the key found for a value in the inverted dictionary gives back that value. */
  lemma LookupInverted<K, V>(d: map<K, V>, v: V)
    requires v in d.Values
    ensures GetValue(InvertDict(d), v).Some?
    ensures GetValue(d, GetValue(InvertDict(d), v).value) == Some(v)
  {
  }

  // ---------------------------------------------------------------------
  // The actor graph
  // ---------------------------------------------------------------------

  /** `graph.setdefault(a, set()).add(b)`. */
  function Link(g: Graph, a: int, b: int): Graph {
    g[a := (if a in g then g[a] else {}) + {b}]
  }

  /** The graph `get_actor_graph` builds from the records, in order. */
  function ActorGraph(data: seq<Record>): Graph
    decreases |data|
  {
    if data == [] then map[]
    else
      var last := data[|data| - 1];
      Link(Link(ActorGraph(data[..|data| - 1]), last.id1, last.id2), last.id2, last.id1)
  }

  /**
   * The keys of the actor graph are exactly the actors named in the records,
   * and `b` is listed under `a` exactly when some record pairs them.
   */
  lemma {:induction false} ActorGraphSpec(data: seq<Record>)
    ensures forall a :: a in ActorGraph(data) <==> Occurs(data, a)
    ensures forall a, b :: a in ActorGraph(data) ==> (b in ActorGraph(data)[a] <==> DidActTogether(data, a, b))
    decreases |data|
  {
    if data != [] {
      var prefix := data[..|data| - 1];
      var last := data[|data| - 1];
      ActorGraphSpec(prefix);
      forall a ensures Occurs(data, a) <==> Occurs(prefix, a) || a == last.id1 || a == last.id2 {
        if Occurs(data, a) {
          var i :| 0 <= i < |data| && (data[i].id1 == a || data[i].id2 == a);
          if i < |prefix| { assert prefix[i] == data[i]; }
        }
        if Occurs(prefix, a) {
          var i :| 0 <= i < |prefix| && (prefix[i].id1 == a || prefix[i].id2 == a);
          assert data[i] == prefix[i];
        }
      }
      ActedTogetherExtend(prefix, last);
      assert data == prefix + [last];
    }
  }

  /** Acting together in `prefix + [last]` is acting together in `prefix` or in `last`. */
  lemma ActedTogetherExtend(prefix: seq<Record>, last: Record)
    ensures forall a, b :: DidActTogether(prefix + [last], a, b) <==> DidActTogether(prefix, a, b) || Pairs(last, a, b)
  {
    var data := prefix + [last];
    forall a, b ensures DidActTogether(data, a, b) <==> DidActTogether(prefix, a, b) || Pairs(last, a, b) {
      if DidActTogether(prefix, a, b) {
        var i :| 0 <= i < |prefix| && Pairs(prefix[i], a, b);
        assert data[i] == prefix[i];
      }
      if Pairs(last, a, b) {
        assert data[|prefix|] == last;
      }
      if DidActTogether(data, a, b) {
        var i :| 0 <= i < |data| && Pairs(data[i], a, b);
        if i < |prefix| { assert prefix[i] == data[i]; }
      }
    }
  }

  /** The actor graph is undirected. */
  lemma ActorGraphSymmetric(data: seq<Record>, a: int, b: int)
    requires a in ActorGraph(data) && b in ActorGraph(data)[a]
    ensures b in ActorGraph(data) && a in ActorGraph(data)[b]
  {
    ActorGraphSpec(data);
    var i :| 0 <= i < |data| && Pairs(data[i], a, b);
    assert Occurs(data, b);
  }

  /** Every co-star listed in the graph is itself a key of the graph. */
  ghost predicate Closed(g: Graph) {
    forall a, b :: a in g && b in g[a] ==> b in g
  }

  lemma ActorGraphClosed(data: seq<Record>)
    ensures Closed(ActorGraph(data))
  {
    forall a, b | a in ActorGraph(data) && b in ActorGraph(data)[a] ensures b in ActorGraph(data) {
      ActorGraphSymmetric(data, a, b);
    }
  }

  /** `get_actor_graph`: the loop of `setdefault(...).add` calls over the records. */
  method GetActorGraph(data: seq<Record>) returns (graph: Graph)
    ensures graph == ActorGraph(data)
  {
    graph := map[];
    for i := 0 to |data|
      invariant graph == ActorGraph(data[..i])
    {
      var r := data[i];
      var stars1 := if r.id1 in graph then graph[r.id1] else {};
      graph := graph[r.id1 := stars1 + {r.id2}];
      var stars2 := if r.id2 in graph then graph[r.id2] else {};
      graph := graph[r.id2 := stars2 + {r.id1}];
      assert data[..i + 1][..i] == data[..i];
    }
    assert data[..|data|] == data;
  }

  // ---------------------------------------------------------------------
  // Distance from Bacon
  // ---------------------------------------------------------------------

  /** Everyone who shares a record with some actor of `s`. */
  function Neighbours(g: Graph, s: set<int>): set<int> {
    set a, b | a in s && a in g && b in g[a] :: b
  }

  /** The actors a breadth-first search reaches in at most `n` rounds. */
  function Within(g: Graph, n: nat): (r: set<int>)
    ensures BaconId in r
  {
    if n == 0 then {BaconId} else Within(g, n - 1) + Neighbours(g, Within(g, n - 1))
  }

  /** The actors first reached in round `n`. */
  function Layer(g: Graph, n: nat): set<int> {
    if n == 0 then {BaconId} else Within(g, n) - Within(g, n - 1)
  }

  /** `p` walks the graph from Bacon to `actor`. */
  ghost predicate IsBaconPath(g: Graph, p: seq<int>, actor: int) {
    && 1 <= |p| && p[0] == BaconId && p[|p| - 1] == actor
    && forall i :: 0 <= i < |p| - 1 ==> p[i] in g && p[i + 1] in g[p[i]]
  }

  /** Some walk from Bacon to `actor` has at most `n` steps. */
  ghost predicate ReachableWithin(g: Graph, actor: int, n: nat) {
    exists p :: IsBaconPath(g, p, actor) && |p| <= n + 1
  }

  ghost predicate Reachable(g: Graph, actor: int) {
    exists p :: IsBaconPath(g, p, actor)
  }

  /** The shortest walk from Bacon to `actor` has exactly `n` steps. */
  ghost predicate HasBaconNumber(g: Graph, actor: int, n: nat) {
    ReachableWithin(g, actor, n) && (n == 0 || !ReachableWithin(g, actor, n - 1))
  }

  lemma {:induction false} WithinMonotone(g: Graph, j: nat, m: nat)
    requires j <= m
    ensures Within(g, j) <= Within(g, m)
    decreases m - j
  {
    if j < m {
      WithinMonotone(g, j, m - 1);
    }
  }

  /** A walk of k steps ends inside round k of the search. */
  lemma {:induction false} PathInWithin(g: Graph, p: seq<int>, actor: int)
    requires IsBaconPath(g, p, actor)
    ensures actor in Within(g, |p| - 1)
    decreases |p|
  {
    if 1 < |p| {
      var q := p[..|p| - 1];
      var prev := p[|p| - 2];
      assert IsBaconPath(g, q, prev);
      PathInWithin(g, q, prev);
      assert prev in g && actor in g[prev];
      assert actor in Neighbours(g, Within(g, |p| - 2));
    }
  }

  /** Everyone reached in round n has a walk of at most n steps. */
  lemma {:induction false} WithinHasPath(g: Graph, n: nat, actor: int)
    requires actor in Within(g, n)
    ensures ReachableWithin(g, actor, n)
  {
    if n == 0 {
      assert IsBaconPath(g, [BaconId], actor);
    } else if actor in Within(g, n - 1) {
      WithinHasPath(g, n - 1, actor);
      var p :| IsBaconPath(g, p, actor) && |p| <= n;
      assert IsBaconPath(g, p, actor) && |p| <= n + 1;
    } else {
      var prev, b :| prev in Within(g, n - 1) && prev in g && b in g[prev] && b == actor;
      WithinHasPath(g, n - 1, prev);
      var p :| IsBaconPath(g, p, prev) && |p| <= n;
      var p' := p + [actor];
      assert IsBaconPath(g, p', actor);
    }
  }

  /** Round n of the search holds exactly the actors at most n steps from Bacon. */
  lemma WithinIffReachable(g: Graph, n: nat, actor: int)
    ensures actor in Within(g, n) <==> ReachableWithin(g, actor, n)
  {
    if actor in Within(g, n) {
      WithinHasPath(g, n, actor);
    }
    if ReachableWithin(g, actor, n) {
      var p :| IsBaconPath(g, p, actor) && |p| <= n + 1;
      PathInWithin(g, p, actor);
      WithinMonotone(g, |p| - 1, n);
    }
  }

  /** Layer n holds exactly the actors whose Bacon number is n. */
  lemma LayerIsBaconNumber(g: Graph, n: nat, actor: int)
    ensures actor in Layer(g, n) <==> HasBaconNumber(g, actor, n)
  {
    WithinIffReachable(g, n, actor);
    if n > 0 {
      WithinIffReachable(g, n - 1, actor);
    }
  }

  lemma LayersAreBaconNumbers(g: Graph, n: nat)
    ensures forall a :: a in Layer(g, n) <==> HasBaconNumber(g, a, n)
  {
    forall a ensures a in Layer(g, n) <==> HasBaconNumber(g, a, n) {
      LayerIsBaconNumber(g, n, a);
    }
  }

  lemma NeighboursUnion(g: Graph, s: set<int>, t: set<int>)
    ensures Neighbours(g, s + t) == Neighbours(g, s) + Neighbours(g, t)
  {
  }

  lemma NeighboursAdd(g: Graph, s: set<int>, a: int)
    requires a in g
    ensures Neighbours(g, s + {a}) == Neighbours(g, s) + g[a]
  {
    NeighboursUnion(g, s, {a});
    forall b | b in g[a] ensures b in Neighbours(g, {a}) {
      assert a in {a} && a in g && b in g[a];
    }
  }

  /** Round n + 1 adds exactly the new co-stars of round n's layer. */
  lemma NextLayer(g: Graph, n: nat)
    ensures Within(g, n) == (if n == 0 then {} else Within(g, n - 1)) + Layer(g, n)
    ensures Layer(g, n + 1) == Neighbours(g, Layer(g, n)) - Within(g, n)
  {
    if n > 0 {
      WithinMonotone(g, n - 1, n);
      assert Within(g, n) == Within(g, n - 1) + Layer(g, n);
      NeighboursUnion(g, Within(g, n - 1), Layer(g, n));
      assert Neighbours(g, Within(g, n - 1)) <= Within(g, n);
    }
  }

  /** Once a round adds nobody, no later round does. */
  lemma {:induction false} WithinStable(g: Graph, j: nat, m: nat)
    requires 1 <= j <= m && Within(g, j) == Within(g, j - 1)
    ensures Within(g, m) == Within(g, j)
    decreases m - j
  {
    if j < m {
      WithinStable(g, j, m - 1);
      var w := Within(g, j);
      assert Within(g, m) == w + Neighbours(g, w);
      assert w == Within(g, j - 1) + Neighbours(g, Within(g, j - 1));
    }
  }

  /** An empty layer is followed by empty layers only. */
  lemma {:induction false} EmptyLayerStays(g: Graph, j: nat, m: nat)
    requires 1 <= j <= m && Layer(g, j) == {}
    ensures Layer(g, m) == {}
    decreases m - j
  {
    if j < m {
      EmptyNextLayer(g, j);
      EmptyLayerStays(g, j + 1, m);
    }
  }

  /** The layer after an empty layer is empty. */
  lemma EmptyNextLayer(g: Graph, j: nat)
    requires 1 <= j && Layer(g, j) == {}
    ensures Layer(g, j + 1) == {}
  {
    NoNewActors(g, j);
    WithinStable(g, j, j + 1);
    UnchangedRound(g, j, Within(g, j));
  }

  /** A round that reaches the same set as the one before it adds an empty layer. */
  lemma UnchangedRound(g: Graph, k: nat, w: set<int>)
    requires Within(g, k + 1) == w && Within(g, k) == w
    ensures Layer(g, k + 1) == {}
  {
    assert w - w == {};
  }

  /** An empty layer j means round j reached nobody new. */
  lemma NoNewActors(g: Graph, j: nat)
    requires 1 <= j && Layer(g, j) == {}
    ensures Within(g, j) == Within(g, j - 1)
  {
    var before, after := Within(g, j - 1), Within(g, j);
    WithinMonotone(g, j - 1, j);
    assert after - before == {};
    forall x | x in after ensures x in before {
      assert x !in after - before;
    }
  }

  /** With Bacon in a closed graph, every actor the search reaches is a key of the graph. */
  lemma {:induction false} WithinInGraph(g: Graph, n: nat)
    requires BaconId in g && Closed(g)
    ensures Within(g, n) <= g.Keys
  {
    if n > 0 {
      WithinInGraph(g, n - 1);
    }
  }

  /** A non-empty set has a member. */
  lemma HasMember(s: set<int>)
    requires s != {}
    ensures exists x :: x in s
  {
    if forall x :: x !in s {
      assert false;
    }
  }

  /** `for i in result.copy(): result |= graph[i]`: the frontier together with its co-stars. */
  method ExpandFrontier(graph: Graph, frontier: set<int>) returns (result: set<int>)
    requires frontier <= graph.Keys
    ensures result == frontier + Neighbours(graph, frontier)
  {
    result := frontier;
    var todo := frontier;
    ghost var done: set<int> := {};
    while todo != {}
      invariant done + todo == frontier
      invariant result == frontier + Neighbours(graph, done)
      decreases |todo|
    {
      HasMember(todo);
      var i :| i in todo;
      NeighboursAdd(graph, done, i);
      result := result + graph[i];
      todo := todo - {i};
      done := done + {i};
    }
  }

  /** The actors a search has closed before round `k`. */
  function Before(g: Graph, k: nat): set<int> {
    if k == 0 then {} else Within(g, k - 1)
  }

  /** Closing layer k on top of the earlier rounds gives round k, all of it keys of a closed graph. */
  lemma CloseLayer(g: Graph, k: nat)
    requires BaconId in g && Closed(g)
    ensures Before(g, k) + Layer(g, k) == Within(g, k)
    ensures Layer(g, k) <= g.Keys
  {
    NextLayer(g, k);
    WithinInGraph(g, k);
  }

  /** Expanding layer k and dropping round k leaves layer k + 1. */
  lemma RoundStep(g: Graph, k: nat, expanded: set<int>)
    requires expanded == Layer(g, k) + Neighbours(g, Layer(g, k))
    ensures expanded - Within(g, k) == Layer(g, k + 1)
  {
    NextLayer(g, k);
  }

  /** An actor is a key of the graph exactly when some record names it. */
  lemma OccursInGraph(data: seq<Record>, a: int)
    ensures a in ActorGraph(data) <==> Occurs(data, a)
  {
    ActorGraphSpec(data);
  }

  /** `get_actors_with_bacon_number`: n rounds of expanding the frontier. */
  method GetActorsWithBaconNumber(data: seq<Record>, n: nat) returns (result: set<int>)
    requires n == 0 || Occurs(data, BaconId)
    ensures n == 0 ==> result == {BaconId}
    ensures result == Layer(ActorGraph(data), n)
    ensures forall a :: a in result <==> HasBaconNumber(ActorGraph(data), a, n)
  {
    result := {BaconId};
    var closed: set<int> := {};
    var graph := GetActorGraph(data);
    ActorGraphClosed(data);
    OccursInGraph(data, BaconId);
    for k := 0 to n
      invariant result == Layer(graph, k)
      invariant closed == Before(graph, k)
    {
      CloseLayer(graph, k);
      closed := closed + result;
      result := ExpandFrontier(graph, result);
      RoundStep(graph, k, result);
      result := result - closed;
      if result == {} {
        EmptyLayerStays(graph, k + 1, n);
        break;
      }
    }
    LayersAreBaconNumbers(graph, n);
  }

  // ---------------------------------------------------------------------
  // Shortest path from Bacon
  // ---------------------------------------------------------------------

  /**
   * Every stored path is a walk from Bacon to its key, of at most k + 1
   * actors for keys in `reached` and of at most k + 2 for the others.
   */
  ghost predicate PathsOk(g: Graph, paths: map<int, seq<int>>, reached: set<int>, k: nat) {
    forall v :: v in paths ==>
      IsBaconPath(g, paths[v], v) && |paths[v]| <= (if v in reached then k + 1 else k + 2)
  }

  /** A walk to `v` extended by a co-star of `v` is a walk to that co-star. */
  lemma ExtendPath(g: Graph, p: seq<int>, v: int, c: int)
    requires IsBaconPath(g, p, v) && v in g && c in g[v]
    ensures IsBaconPath(g, p + [c], c)
  {
    var q := p + [c];
    forall i | 0 <= i < |q| - 1 ensures q[i] in g && q[i + 1] in g[q[i]] {
      if i < |p| - 1 {
        assert q[i] == p[i] && q[i + 1] == p[i + 1];
      }
    }
  }

  /** An actor outside round k is more than k steps from Bacon. */
  lemma LongerThan(g: Graph, k: nat, actor: int, q: seq<int>)
    requires actor !in Within(g, k) && IsBaconPath(g, q, actor)
    ensures k + 2 <= |q|
  {
    PathInWithin(g, q, actor);
    if |q| - 1 <= k {
      WithinMonotone(g, |q| - 1, k);
    }
  }

  /** Once round k adds nobody, every walk from Bacon ends inside round k. */
  lemma ReachedBy(g: Graph, k: nat, q: seq<int>, actor: int)
    requires 1 <= k && Within(g, k) == Within(g, k - 1) && IsBaconPath(g, q, actor)
    ensures actor in Within(g, k)
  {
    PathInWithin(g, q, actor);
    if |q| - 1 <= k {
      WithinMonotone(g, |q| - 1, k);
    } else {
      WithinStable(g, k, |q| - 1);
    }
  }

  /** Once layer k is empty, everyone reachable from Bacon is inside round k. */
  lemma ReachableInRound(g: Graph, k: nat, actor: int)
    requires 1 <= k && Layer(g, k) == {}
    ensures Reachable(g, actor) ==> actor in Within(g, k)
  {
    NoNewActors(g, k);
    if Reachable(g, actor) {
      var q :| IsBaconPath(g, q, actor);
      ReachedBy(g, k, q, actor);
    }
  }

  /** Growing a subset of `c` shrinks what it leaves out of `c`, strictly when it grows strictly. */
  lemma DifferenceShrinks(a: set<int>, b: set<int>, c: set<int>)
    requires a <= b <= c
    ensures |c - b| <= |c - a|
    ensures a != b ==> |c - b| < |c - a|
  {
    assert b == a + (b - a) && a * (b - a) == {};
    if a != b {
      assert b - a != {};
    }
    assert c == b + (c - b) && b * (c - b) == {};
    assert c == a + (c - a) && a * (c - a) == {};
  }

  /** A subset whose difference with its superset is empty is the superset. */
  lemma AllVisited(done: set<int>, all: set<int>)
    requires done <= all && all - done == {}
    ensures done == all
  {
    forall x | x in all ensures x in done {
      assert x !in all - done;
    }
  }

  /**
   * The inner loop of `get_bacon_path` over the children of `node`: every
   * child without a stored path joins the next fringe and gets the path to
   * `node` extended by itself; stored paths stay as they are.
   */
  method VisitChildren(paths: map<int, seq<int>>, nextFringe: set<int>, node: int, children: set<int>)
    returns (paths': map<int, seq<int>>, nextFringe': set<int>)
    requires node in paths
    ensures forall v :: v in paths' <==> v in paths || v in children
    ensures forall v :: v in paths ==> paths'[v] == paths[v]
    ensures forall c :: c in children && c !in paths ==> paths'[c] == paths[node] + [c]
    ensures forall v :: v in nextFringe' <==> v in nextFringe || (v in children && v !in paths)
  {
    paths', nextFringe' := paths, nextFringe;
    var todo := children;
    ghost var done: set<int> := {};
    while todo != {}
      invariant done <= children && todo == children - done
      invariant forall v :: v in paths' <==> v in paths || v in done
      invariant forall v :: v in paths ==> paths'[v] == paths[v]
      invariant forall c :: c in done && c !in paths ==> paths'[c] == paths[node] + [c]
      invariant forall v :: v in nextFringe' <==> v in nextFringe || (v in done && v !in paths)
      decreases |todo|
    {
      HasMember(todo);
      var child :| child in todo;
      if child !in paths' {
        nextFringe' := nextFringe' + {child};
        paths' := paths'[child := paths'[node] + [child]];
      }
      todo := todo - {child};
      done := done + {child};
    }
  }

  /** Visiting one more fringe node keeps the bookkeeping of a round. */
  lemma VisitStep(g: Graph, k: nat, reached: set<int>, done: set<int>, node: int,
                  paths: map<int, seq<int>>, nextFringe: set<int>,
                  paths': map<int, seq<int>>, nextFringe': set<int>)
    requires node in reached && node in g
    requires forall v :: v in nextFringe <==> v in Neighbours(g, done) && v !in reached
    requires forall v :: v in paths <==> v in reached || v in nextFringe
    requires PathsOk(g, paths, reached, k)
    requires forall v :: v in paths' <==> v in paths || v in g[node]
    requires forall v :: v in paths ==> paths'[v] == paths[v]
    requires forall c :: c in g[node] && c !in paths ==> paths'[c] == paths[node] + [c]
    requires forall v :: v in nextFringe' <==> v in nextFringe || (v in g[node] && v !in paths)
    ensures forall v :: v in nextFringe' <==> v in Neighbours(g, done + {node}) && v !in reached
    ensures forall v :: v in paths' <==> v in reached || v in nextFringe'
    ensures PathsOk(g, paths', reached, k)
  {
    NeighboursAdd(g, done, node);
    forall v | v in paths'
      ensures IsBaconPath(g, paths'[v], v)
      ensures |paths'[v]| <= (if v in reached then k + 1 else k + 2)
    {
      if v !in paths {
        ExtendPath(g, paths[node], node, v);
      }
    }
  }

  /**
   * One pass of `get_bacon_path`'s `for node in fringe` loop, over the actors
   * `reached` so far: either the target is a co-star of some fringe node,
   * and the stored path to that node extended by the target comes back, or
   * the pass stores paths for the new co-stars of the fringe, which it
   * returns as the next fringe.
   */
  method SearchRound(graph: Graph, ghost k: nat, ghost reached: set<int>, fringe: set<int>,
                     paths: map<int, seq<int>>, actor: int)
    returns (found: Option<seq<int>>, paths': map<int, seq<int>>, nextFringe: set<int>)
    requires fringe <= reached && fringe <= graph.Keys && paths.Keys == reached
    requires actor !in paths && PathsOk(graph, paths, reached, k)
    ensures found.Some? ==> IsBaconPath(graph, found.value, actor) && |found.value| <= k + 2
    ensures found.None? ==> forall v :: v in nextFringe <==> v in Neighbours(graph, fringe) && v !in reached
    ensures found.None? ==> forall v :: v in paths' <==> v in reached || v in nextFringe
    ensures found.None? ==> actor !in paths' && PathsOk(graph, paths', reached, k)
  {
    paths', nextFringe := paths, {};
    var todo := fringe;
    ghost var done: set<int> := {};
    while todo != {}
      invariant done <= fringe && todo == fringe - done
      invariant forall v :: v in nextFringe <==> v in Neighbours(graph, done) && v !in reached
      invariant forall v :: v in paths' <==> v in reached || v in nextFringe
      invariant actor !in paths' && PathsOk(graph, paths', reached, k)
      decreases |todo|
    {
      HasMember(todo);
      var node :| node in todo;
      var children := graph[node];
      if actor in children {
        ExtendPath(graph, paths'[node], node, actor);
        return Some(paths'[node] + [actor]), paths', nextFringe;
      }
      var visited, grown := VisitChildren(paths', nextFringe, node, children);
      VisitStep(graph, k, reached, done, node, paths', nextFringe, visited, grown);
      paths', nextFringe := visited, grown;
      todo := todo - {node};
      done := done + {node};
    }
    AllVisited(done, fringe);
    found := None;
  }

  /** After a round over layer k that has not found the target, the next fringe is layer k + 1. */
  lemma EndRound(g: Graph, k: nat, paths: map<int, seq<int>>, nextFringe: set<int>)
    requires forall v :: v in nextFringe <==> v in Neighbours(g, Layer(g, k)) && v !in Within(g, k)
    requires forall v :: v in paths <==> v in Within(g, k) || v in nextFringe
    requires PathsOk(g, paths, Within(g, k), k)
    ensures nextFringe == Layer(g, k + 1) && paths.Keys == Within(g, k + 1)
    ensures PathsOk(g, paths, Within(g, k + 1), k + 1)
  {
    NextLayer(g, k);
    NextLayer(g, k + 1);
    WithinMonotone(g, k, k + 1);
    forall v ensures v in nextFringe <==> v in Layer(g, k + 1) {
    }
    assert nextFringe == Layer(g, k + 1);
    forall v ensures v in paths.Keys <==> v in Within(g, k + 1) {
    }
  }

  /**
   * A round of `get_bacon_path` over layer k that has not found the target
   * leaves layer k + 1 as the fringe, and either reaches more of the graph
   * or leaves an empty fringe.
   */
  lemma AdvanceRound(g: Graph, k: nat, paths: map<int, seq<int>>, nextFringe: set<int>)
    requires BaconId in g && Closed(g)
    requires forall v :: v in nextFringe <==> v in Neighbours(g, Layer(g, k)) && v !in Within(g, k)
    requires forall v :: v in paths <==> v in Within(g, k) || v in nextFringe
    requires PathsOk(g, paths, Within(g, k), k)
    ensures nextFringe == Layer(g, k + 1) && paths.Keys == Within(g, k + 1)
    ensures PathsOk(g, paths, Within(g, k + 1), k + 1)
    ensures |g.Keys - paths.Keys| <= |g.Keys - Within(g, k)|
    ensures |g.Keys - paths.Keys| < |g.Keys - Within(g, k)| || nextFringe == {}
  {
    SearchInGraph(g, k);
    EndRound(g, k, paths, nextFringe);
    DifferenceShrinks(Within(g, k), paths.Keys, g.Keys);
    if Within(g, k) == paths.Keys {
      UnchangedRound(g, k, Within(g, k));
    }
  }

  /** The one-actor path [Bacon] is a shortest walk from Bacon to Bacon. */
  lemma BaconPathToBacon(g: Graph)
    ensures IsBaconPath(g, [BaconId], BaconId) && Reachable(g, BaconId)
    ensures forall q :: IsBaconPath(g, q, BaconId) ==> 1 <= |q|
  {
    assert IsBaconPath(g, [BaconId], BaconId);
  }

  /** A walk found in round k to an actor outside round k is a shortest one. */
  lemma FoundIsShortest(g: Graph, k: nat, actor: int, p: seq<int>)
    requires actor !in Within(g, k) && IsBaconPath(g, p, actor) && |p| <= k + 2
    ensures Reachable(g, actor)
    ensures forall q :: IsBaconPath(g, q, actor) ==> |p| <= |q|
  {
    forall q | IsBaconPath(g, q, actor) ensures |p| <= |q| {
      LongerThan(g, k, actor, q);
    }
  }

  /** With Bacon in a closed graph, every round of the search stays within the graph. */
  lemma SearchInGraph(g: Graph, k: nat)
    requires BaconId in g && Closed(g)
    ensures Layer(g, k) <= Within(g, k) <= g.Keys
    ensures Within(g, k) <= Within(g, k + 1) <= g.Keys
  {
    WithinInGraph(g, k);
    WithinInGraph(g, k + 1);
    NextLayer(g, k);
    WithinMonotone(g, k, k + 1);
  }

  /**
   * One round of the search, over layer k: either a shortest path to the
   * target, or the paths and the fringe of round k + 1.
   */
  method SearchLayer(graph: Graph, ghost k: nat, fringe: set<int>, paths: map<int, seq<int>>, actor: int)
    returns (found: Option<seq<int>>, paths': map<int, seq<int>>, nextFringe: set<int>)
    requires BaconId in graph && Closed(graph)
    requires fringe == Layer(graph, k) && paths.Keys == Within(graph, k)
    requires actor !in paths && PathsOk(graph, paths, Within(graph, k), k)
    ensures found.Some? ==> IsBaconPath(graph, found.value, actor) && Reachable(graph, actor)
    ensures found.Some? ==> forall q :: IsBaconPath(graph, q, actor) ==> |found.value| <= |q|
    ensures found.None? ==> nextFringe == Layer(graph, k + 1) && paths'.Keys == Within(graph, k + 1)
    ensures found.None? ==> actor !in paths' && PathsOk(graph, paths', Within(graph, k + 1), k + 1)
    ensures found.None? ==> |graph.Keys - paths'.Keys| <= |graph.Keys - paths.Keys|
    ensures found.None? ==> |graph.Keys - paths'.Keys| < |graph.Keys - paths.Keys| || nextFringe == {}
  {
    SearchInGraph(graph, k);
    found, paths', nextFringe := SearchRound(graph, k, Within(graph, k), fringe, paths, actor);
    if found.Some? {
      FoundIsShortest(graph, k, actor, found.value);
    } else {
      AdvanceRound(graph, k, paths', nextFringe);
    }
  }

  /**
   * `get_bacon_path`: builds the actor graph and searches it from Bacon.
   */
  method GetBaconPath(data: seq<Record>, actor: int) returns (path: Option<seq<int>>)
    requires actor == BaconId || Occurs(data, BaconId)
    ensures actor == BaconId ==> path == Some([BaconId])
    ensures path.Some? ==> IsBaconPath(ActorGraph(data), path.value, actor)
    ensures path.Some? ==> forall q :: IsBaconPath(ActorGraph(data), q, actor) ==> |path.value| <= |q|
    ensures path.None? <==> !Reachable(ActorGraph(data), actor)
  {
    var graph := GetActorGraph(data);
    if actor != BaconId {
      ActorGraphClosed(data);
      OccursInGraph(data, BaconId);
    }
    path := SearchFromBacon(graph, actor);
  }

  /**
   * The search of `get_bacon_path`: a breadth-first search that stores, for
   * every actor it reaches, the path it reached it by, and stops at the
   * first fringe actor who has acted with the target.  `None` when the
   * search runs dry.
   */
  method SearchFromBacon(graph: Graph, actor: int) returns (path: Option<seq<int>>)
    requires actor == BaconId || (BaconId in graph && Closed(graph))
    ensures actor == BaconId ==> path == Some([BaconId])
    ensures path.Some? ==> IsBaconPath(graph, path.value, actor)
    ensures path.Some? ==> forall q :: IsBaconPath(graph, q, actor) ==> |path.value| <= |q|
    ensures path.None? <==> !Reachable(graph, actor)
  {
    var fringe := {BaconId};
    var nextFringe: set<int> := {};
    var paths := map[BaconId := [BaconId]];
    if actor == BaconId {
      BaconPathToBacon(graph);
      return Some(paths[BaconId]);
    }
    ghost var k: nat := 0;
    ghost var reached := Within(graph, k);
    while fringe != {}
      invariant fringe == Layer(graph, k) && reached == Within(graph, k)
      invariant paths.Keys == reached && actor !in reached && PathsOk(graph, paths, reached, k)
      invariant 0 < k || BaconId in fringe
      decreases |graph.Keys - reached|, |fringe|
    {
      var found;
      found, paths, nextFringe := SearchLayer(graph, k, fringe, paths, actor);
      if found.Some? {
        return found;
      }
      fringe := nextFringe;
      nextFringe := {};
      k := k + 1;
      reached := paths.Keys;
    }
    ReachableInRound(graph, k, actor);
    return None;
  }
}
