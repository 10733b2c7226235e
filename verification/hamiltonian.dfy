/** Hamiltonian-path search by backtracking over an adjacency dictionary.
    The dictionary is modelled as the sequence of its keys, in insertion order,
    plus a map from each key to its ordered list of neighbours. */
module HamiltonianSearch {

  type Vertex = int

  datatype Option<T> = None | Some(value: T)

  /** An adjacency dictionary: `keys` in iteration order, `adj` the lists. */
  datatype Graph = Graph(keys: seq<Vertex>, adj: map<Vertex, seq<Vertex>>)

  function Elems(s: seq<Vertex>): set<Vertex>
  {
    set x | x in s
  }

  predicate Distinct(s: seq<Vertex>)
  {
    forall i, j :: 0 <= i < j < |s| ==> s[i] != s[j]
  }

  function Last(s: seq<Vertex>): Vertex
    requires |s| > 0
  {
    s[|s| - 1]
  }

  /** A dictionary lists each key once, and its key sequence is its key set. */
  ghost predicate WellFormed(g: Graph)
  {
    Distinct(g.keys) && Elems(g.keys) == g.adj.Keys
  }

  /** Every neighbour named in the dictionary is itself a key. */
  ghost predicate Closed(g: Graph)
  {
    forall u, w :: w in Neighbours(g, u) ==> w in g.adj
  }

  /** `graph.get(v, [])`: a vertex that is not a key has no neighbours. */
  function Neighbours(g: Graph, v: Vertex): (ns: seq<Vertex>)
    ensures v !in g.adj ==> ns == []
    ensures forall w :: w in ns ==> w in Universe(g)
  {
    if v in g.adj then g.adj[v] else []
  }

  /** Every vertex the search can ever place on its path. */
  ghost function Universe(g: Graph): set<Vertex>
  {
    Elems(g.keys) + g.adj.Keys + (set u, w | u in g.adj && w in g.adj[u] :: w)
  }

  /** Consecutive vertices are joined by an edge. */
  ghost predicate IsWalk(g: Graph, s: seq<Vertex>)
  {
    forall i :: 0 <= i < |s| - 1 ==> s[i + 1] in Neighbours(g, s[i])
  }

  ghost predicate IsSimplePath(g: Graph, s: seq<Vertex>)
  {
    Distinct(s) && IsWalk(g, s)
  }

  /** A path through every key of the dictionary, each exactly once. */
  ghost predicate IsHamiltonianPath(g: Graph, s: seq<Vertex>)
  {
    IsSimplePath(g, s) && |s| == |g.keys| && Elems(s) == Elems(g.keys)
  }

  /** Every neighbour list draws from the universe. */
  lemma NeighbourInUniverse(g: Graph, v: Vertex, w: Vertex)
    requires w in Neighbours(g, v)
    ensures w in Universe(g)
  {
  }

  /** Pushing an unvisited vertex shrinks the set of vertices still unvisited. */
  lemma FewerUnvisited(g: Graph, p: seq<Vertex>, v: Vertex)
    requires v in Universe(g) && v !in p
    ensures |Universe(g) - Elems(p + [v])| < |Universe(g) - Elems(p)|
  {
    var u := Universe(g);
    assert Elems(p + [v]) == Elems(p) + {v};
    assert u - Elems(p) == (u - Elems(p + [v])) + {v};
  }

  /** Appending an unvisited neighbour of the last vertex keeps a simple path simple. */
  lemma PushKeepsSimple(g: Graph, p: seq<Vertex>, v: Vertex)
    requires IsSimplePath(g, p) && v !in p
    requires |p| > 0 ==> v in Neighbours(g, Last(p))
    ensures IsSimplePath(g, p + [v]) && Elems(p + [v]) == Elems(p) + {v}
  {
  }

  // ---------------------------------------------------------------------------
  // The search as functions: the specification the imperative code is proved
  // against.

  /** What `backtrack(v)` yields when called with current path `p`:
      the completed path, or None after restoring `p`. */
  function Extend(g: Graph, n: int, p: seq<Vertex>, v: Vertex): (r: Option<seq<Vertex>>)
    requires v in Universe(g) && v !in p
    ensures r.Some? ==> |r.value| == n && p + [v] <= r.value
    decreases |Universe(g) - Elems(p)|, 0
  {
    FewerUnvisited(g, p, v);
    var q := p + [v];
    if |q| == n then Some(q) else Explore(g, n, q, 0)
  }

  /** The loop over the neighbours of the last vertex of `q`, from index `i` on. */
  function Explore(g: Graph, n: int, q: seq<Vertex>, i: nat): (r: Option<seq<Vertex>>)
    requires |q| > 0 && i <= |Neighbours(g, Last(q))|
    ensures r.Some? ==> |r.value| == n && |q| < n && q <= r.value
    decreases |Universe(g) - Elems(q)|, |Neighbours(g, Last(q))| - i + 1
  {
    var ns := Neighbours(g, Last(q));
    if i == |ns| then None
    else if ns[i] in q then Explore(g, n, q, i + 1)
    else
      NeighbourInUniverse(g, Last(q), ns[i]);
      var r := Extend(g, n, q, ns[i]);
      if r.Some? then r else Explore(g, n, q, i + 1)
  }

  /** One call of `backtrack`: done at `n` vertices, else the neighbour loop. */
  lemma ExtendUnfold(g: Graph, n: int, p: seq<Vertex>, v: Vertex)
    requires v in Universe(g) && v !in p
    ensures Extend(g, n, p, v) ==
      if |p + [v]| == n then Some(p + [v]) else Explore(g, n, p + [v], 0)
  {
  }

  /** Popping the vertex just pushed restores the path and its element set. */
  lemma PopRestores(p: seq<Vertex>, v: Vertex)
    requires v !in p
    ensures (p + [v])[..|p|] == p && Elems(p + [v]) - {v} == Elems(p)
  {
  }

  /** One step of the neighbour loop. */
  lemma ExploreStep(g: Graph, n: int, q: seq<Vertex>, i: nat)
    requires |q| > 0 && i < |Neighbours(g, Last(q))|
    ensures Neighbours(g, Last(q))[i] in Universe(g)
    ensures Explore(g, n, q, i) ==
      var u := Neighbours(g, Last(q))[i];
      if u in q then Explore(g, n, q, i + 1)
      else if Extend(g, n, q, u).Some? then Extend(g, n, q, u)
      else Explore(g, n, q, i + 1)
  {
    var ns := Neighbours(g, Last(q));
    NeighbourInUniverse(g, Last(q), ns[i]);
  }

  /** The loop over start vertices, from the `i`-th key on. */
  function FirstPath(g: Graph, n: int, i: nat): (r: Option<seq<Vertex>>)
    requires i <= |g.keys|
    ensures r.Some? ==> |r.value| == n && n > 0 && exists k :: i <= k < |g.keys| && r.value[0] == g.keys[k]
    decreases |g.keys| - i
  {
    if i == |g.keys| then None
    else
      var r := Extend(g, n, [], g.keys[i]);
      if r.Some? then r else FirstPath(g, n, i + 1)
  }

  /** `hamiltonian_path(graph, n)` as a value: None on an empty dictionary,
      otherwise at most a list of `n` vertices starting at a key. */
  function FindPath(g: Graph, n: int): (r: Option<seq<Vertex>>)
    ensures |g.keys| == 0 ==> r == None
    ensures r.Some? ==> |r.value| == n && n > 0 && r.value[0] in g.keys
  {
    FirstPath(g, n, 0)
  }

  // ---------------------------------------------------------------------------
  // The search as the source runs it: a shared path and visited set, updated
  // in place and undone on failure.

  class Search {
    const g: Graph
    const n: int
    var path: seq<Vertex>
    var visited: set<Vertex>

    /** `visited` mirrors `path`, which never repeats a vertex and follows edges. */
    ghost predicate Valid()
      reads this
    {
      visited == Elems(path) && IsSimplePath(g, path)
    }

    constructor (g: Graph, n: int)
      ensures Valid() && this.g == g && this.n == n
      ensures path == [] && visited == {}
    {
      this.g := g;
      this.n := n;
      path := [];
      visited := {};
    }

    /** `path.clear()` and `visited.clear()`. */
    method Clear()
      requires Valid()
      modifies this
      ensures Valid() && path == [] && visited == {}
    {
      path := [];
      visited := {};
    }

    /** Pushes `v`, then tries each unvisited neighbour in order; on failure
        pops `v` again, leaving the state exactly as it was. */
    method Backtrack(v: Vertex) returns (found: bool)
      requires Valid()
      requires v in Universe(g) && v !in visited
      requires |path| > 0 ==> v in Neighbours(g, Last(path))
      modifies this
      decreases |Universe(g) - visited|
      ensures Valid()
      ensures found == Extend(g, n, old(path), v).Some?
      ensures found ==> path == Extend(g, n, old(path), v).value
      ensures !found ==> path == old(path) && visited == old(visited)
    {
      ghost var p := path;
      ghost var q := p + [v];
      FewerUnvisited(g, p, v);
      PushKeepsSimple(g, p, v);
      PopRestores(p, v);
      ExtendUnfold(g, n, p, v);
      path := path + [v];
      visited := visited + {v};
      if |path| == n {
        return true;
      }
      var ns := Neighbours(g, v);
      assert Last(q) == v;
      var i := 0;
      while i < |ns|
        invariant 0 <= i <= |ns|
        invariant path == q && visited == Elems(q)
        invariant Explore(g, n, q, i) == Extend(g, n, p, v)
      {
        var u := ns[i];
        ExploreStep(g, n, q, i);
        if u !in visited {
          found := Backtrack(u);
          if found {
            return;
          }
        }
        i := i + 1;
      }
      path := path[..|path| - 1];
      visited := visited - {v};
      return false;
    }
  }

  /** `hamiltonian_path(graph, n)`: the first start key, in iteration order,
      from which backtracking reaches a path of `n` vertices. */
  method HamiltonianPath(g: Graph, n: int) returns (r: Option<seq<Vertex>>)
    ensures r == FindPath(g, n)
    ensures |g.keys| == 0 ==> r == None
  {
    var s := new Search(g, n);
    for i := 0 to |g.keys|
      invariant s.Valid() && s.g == g && s.n == n
      invariant FirstPath(g, n, i) == FindPath(g, n)
    {
      s.Clear();
      var found := s.Backtrack(g.keys[i]);
      if found {
        return Some(s.path);
      }
    }
    return None;
  }

  // ---------------------------------------------------------------------------
  // What the search promises.

  /** A completed `backtrack(v)` yields a simple path of exactly `n` vertices
      that begins with the path it was called with, followed by `v`. */
  lemma {:induction false} ExtendSound(g: Graph, n: int, p: seq<Vertex>, v: Vertex)
    requires v in Universe(g) && v !in p
    requires IsSimplePath(g, p) && (|p| > 0 ==> v in Neighbours(g, Last(p)))
    ensures Extend(g, n, p, v).Some? ==>
      var r := Extend(g, n, p, v).value;
      |r| == n && IsSimplePath(g, r) && p + [v] <= r
    decreases |Universe(g) - Elems(p)|, 0
  {
    FewerUnvisited(g, p, v);
    PushKeepsSimple(g, p, v);
    if |p + [v]| != n {
      ExploreSound(g, n, p + [v], 0);
    }
  }

  lemma {:induction false} ExploreSound(g: Graph, n: int, q: seq<Vertex>, i: nat)
    requires |q| > 0 && i <= |Neighbours(g, Last(q))|
    requires IsSimplePath(g, q)
    ensures Explore(g, n, q, i).Some? ==>
      var r := Explore(g, n, q, i).value;
      |r| == n && IsSimplePath(g, r) && q <= r
    decreases |Universe(g) - Elems(q)|, |Neighbours(g, Last(q))| - i + 1
  {
    var ns := Neighbours(g, Last(q));
    if i < |ns| {
      if ns[i] !in q {
        NeighbourInUniverse(g, Last(q), ns[i]);
        ExtendSound(g, n, q, ns[i]);
      }
      ExploreSound(g, n, q, i + 1);
    }
  }

  /** A neighbour loop that ends empty-handed tried every unvisited neighbour
      from `i` on, and each of those attempts failed. */
  lemma {:induction false} ExploreFailedAt(g: Graph, n: int, q: seq<Vertex>, i: nat, j: nat)
    requires |q| > 0 && i <= j < |Neighbours(g, Last(q))|
    requires Neighbours(g, Last(q))[j] !in q
    requires Explore(g, n, q, i) == None
    ensures Neighbours(g, Last(q))[j] in Universe(g)
    ensures Extend(g, n, q, Neighbours(g, Last(q))[j]) == None
    decreases j - i
  {
    NeighbourInUniverse(g, Last(q), Neighbours(g, Last(q))[j]);
    if i < j {
      ExploreFailedAt(g, n, q, i + 1, j);
    }
  }

  /** A failed `backtrack(v)` is exhaustive: no simple path of `n` vertices
      begins with the current path followed by `v`. */
  lemma {:induction false} ExtendComplete(g: Graph, n: int, p: seq<Vertex>, v: Vertex, r: seq<Vertex>)
    requires v in Universe(g) && v !in p
    requires Extend(g, n, p, v) == None
    requires IsSimplePath(g, r) && p + [v] <= r
    ensures |r| != n
    decreases |Universe(g) - Elems(p)|
  {
    FewerUnvisited(g, p, v);
    var q := p + [v];
    if |r| == n {
      var k := |q|;
      assert k < |r|;
      var w := r[k];
      assert r[k - 1] == v;
      assert w in Neighbours(g, v);
      forall t | 0 <= t < k
        ensures q[t] != w
      {
        assert q[t] == r[t];
      }
      var ns := Neighbours(g, v);
      var j :| 0 <= j < |ns| && ns[j] == w;
      ExploreFailedAt(g, n, q, 0, j);
      assert r[..k + 1] == q + [w];
      ExtendComplete(g, n, q, w, r);
    }
  }

  /** A returned path starts at a key, and every earlier key in iteration
      order was tried and failed. */
  lemma {:induction false} FirstPathFirstKey(g: Graph, n: int, i: nat)
    requires i <= |g.keys|
    ensures FirstPath(g, n, i).Some? ==>
      exists k :: i <= k < |g.keys| &&
        Extend(g, n, [], g.keys[k]) == FirstPath(g, n, i) &&
        forall j :: i <= j < k ==> Extend(g, n, [], g.keys[j]) == None
    decreases |g.keys| - i
  {
    if i < |g.keys| && Extend(g, n, [], g.keys[i]).None? {
      FirstPathFirstKey(g, n, i + 1);
    }
  }

  /** Soundness of `hamiltonian_path`: a returned list has exactly `n`
      vertices, repeats none, follows edges, and starts at the first key from
      which the search succeeds. */
  lemma FindPathSound(g: Graph, n: int)
    ensures FindPath(g, n).Some? ==>
      var r := FindPath(g, n).value;
      |r| == n && IsSimplePath(g, r) && |r| > 0 &&
      exists k :: 0 <= k < |g.keys| && r[0] == g.keys[k] &&
        forall j :: 0 <= j < k ==> Extend(g, n, [], g.keys[j]) == None
  {
    if FindPath(g, n).Some? {
      FirstPathFirstKey(g, n, 0);
      var k :| 0 <= k < |g.keys| &&
        Extend(g, n, [], g.keys[k]) == FindPath(g, n) &&
        forall j :: 0 <= j < k ==> Extend(g, n, [], g.keys[j]) == None;
      ExtendSound(g, n, [], g.keys[k]);
    }
  }

  /** Every start key fails before the start loop returns None. */
  lemma {:induction false} FirstPathNone(g: Graph, n: int, i: nat, k: nat)
    requires i <= k < |g.keys|
    requires FirstPath(g, n, i) == None
    ensures Extend(g, n, [], g.keys[k]) == None
    decreases k - i
  {
    if i < k {
      FirstPathNone(g, n, i + 1, k);
    }
  }

  /** Completeness of `hamiltonian_path`: None means no simple path of `n`
      vertices starts at any key. */
  lemma FindPathComplete(g: Graph, n: int, r: seq<Vertex>)
    requires FindPath(g, n) == None
    requires IsSimplePath(g, r) && |r| > 0 && r[0] in g.keys
    ensures |r| != n
  {
    var k :| 0 <= k < |g.keys| && g.keys[k] == r[0];
    FirstPathNone(g, n, 0, k);
    assert [] + [r[0]] <= r;
    ExtendComplete(g, n, [], r[0], r);
  }

  // ---------------------------------------------------------------------------
  // The demo passes `n = len(graph)`: on a dictionary whose neighbours are all
  // keys, the search then decides whether a Hamiltonian path exists.

  lemma {:induction false} DistinctCard(s: seq<Vertex>)
    requires Distinct(s)
    ensures |Elems(s)| == |s|
  {
    if |s| > 0 {
      var t := s[..|s| - 1];
      assert s == t + [Last(s)];
      assert Elems(s) == Elems(t) + {Last(s)};
      assert Last(s) !in Elems(t) by {
        forall i | 0 <= i < |t|
          ensures t[i] != Last(s)
        {
          assert t[i] == s[i];
        }
      }
      DistinctCard(t);
    }
  }

  lemma SameSizeSubset(a: set<Vertex>, b: set<Vertex>)
    requires a <= b && |a| == |b|
    ensures a == b
  {
    assert b == a + (b - a);
    assert a * (b - a) == {};
    assert |b - a| == 0;
  }

  /** A walk that starts at a key of a closed dictionary never leaves its keys. */
  lemma {:induction false} WalkStaysInKeys(g: Graph, s: seq<Vertex>, i: nat)
    requires Closed(g) && IsWalk(g, s)
    requires i < |s| && |s| > 0 && s[0] in g.adj
    ensures s[i] in g.adj
  {
    if i > 0 {
      WalkStaysInKeys(g, s, i - 1);
      var u, w := s[i - 1], s[i];
      assert w in Neighbours(g, u);
      assert w in g.adj;
    }
  }

  /** A simple path of `|keys|` vertices from a key visits every key once. */
  lemma CoversAllKeys(g: Graph, r: seq<Vertex>)
    requires WellFormed(g) && Closed(g)
    requires IsSimplePath(g, r) && |r| == |g.keys| && |r| > 0 && r[0] in g.adj
    ensures IsHamiltonianPath(g, r)
  {
    forall x | x in Elems(r)
      ensures x in Elems(g.keys)
    {
      var i :| 0 <= i < |r| && r[i] == x;
      WalkStaysInKeys(g, r, i);
    }
    DistinctCard(r);
    DistinctCard(g.keys);
    SameSizeSubset(Elems(r), Elems(g.keys));
  }

  /** With `n = len(graph)` on a closed dictionary, a returned list is a
      Hamiltonian path. */
  lemma HamiltonianSound(g: Graph)
    requires WellFormed(g) && Closed(g)
    ensures FindPath(g, |g.keys|).Some? ==> IsHamiltonianPath(g, FindPath(g, |g.keys|).value)
  {
    if FindPath(g, |g.keys|).Some? {
      var r := FindPath(g, |g.keys|).value;
      FindPathSound(g, |g.keys|);
      CoversAllKeys(g, r);
    }
  }

  /** With `n = len(graph)` on a closed, non-empty dictionary, the search
      returns a list exactly when a Hamiltonian path exists. */
  lemma HamiltonianDecision(g: Graph)
    requires WellFormed(g) && Closed(g) && |g.keys| > 0
    ensures FindPath(g, |g.keys|).Some? <==> exists r :: IsHamiltonianPath(g, r)
  {
    HamiltonianSound(g);
    if r :| IsHamiltonianPath(g, r) {
      assert r[0] in Elems(r);
      if FindPath(g, |g.keys|) == None {
        FindPathComplete(g, |g.keys|, r);
      }
    }
  }

  /** The directed chain 0 -> 1 -> 2 -> 3 of the demo has the single path [0, 1, 2, 3]. */
  lemma ChainExample()
    ensures FindPath(Graph([0, 1, 2, 3], map[0 := [1], 1 := [2], 2 := [3], 3 := []]), 4)
      == Some([0, 1, 2, 3])
  {
    var g := Graph([0, 1, 2, 3], map[0 := [1], 1 := [2], 2 := [3], 3 := []]);
    assert 0 in Elems(g.keys);
    assert Neighbours(g, 0) == [1] && Neighbours(g, 1) == [2] && Neighbours(g, 2) == [3];
    NeighbourInUniverse(g, 0, 1);
    NeighbourInUniverse(g, 1, 2);
    NeighbourInUniverse(g, 2, 3);
    assert [0, 1, 2] + [3] == [0, 1, 2, 3];
    assert [0, 1] + [2] == [0, 1, 2] && [0] + [1] == [0, 1] && [] + [0] == [0];
    assert Extend(g, 4, [0, 1, 2], 3) == Some([0, 1, 2, 3]);
    assert Explore(g, 4, [0, 1, 2], 0) == Some([0, 1, 2, 3]);
    assert Extend(g, 4, [0, 1], 2) == Some([0, 1, 2, 3]);
    assert Explore(g, 4, [0, 1], 0) == Some([0, 1, 2, 3]);
    assert Extend(g, 4, [0], 1) == Some([0, 1, 2, 3]);
    assert Explore(g, 4, [0], 0) == Some([0, 1, 2, 3]);
    assert Extend(g, 4, [], 0) == Some([0, 1, 2, 3]);
  }

  /** A single-key dictionary yields the one-vertex path when `n = 1`. */
  lemma SingleVertex(v: Vertex, ns: seq<Vertex>)
    ensures FindPath(Graph([v], map[v := ns]), 1) == Some([v])
  {
    var g := Graph([v], map[v := ns]);
    assert v in Elems(g.keys);
    assert [] + [v] == [v];
    assert Extend(g, 1, [], v) == Some([v]);
  }
}
