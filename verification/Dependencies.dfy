/** The graph of product dependencies: reachability as the recursive query computes it, and acyclicity. */
module Dependencies {
  type ProductId = nat

  type Edge = (ProductId, ProductId)

  // ---------------------------------------------------------------- paths

  predicate IsPath(g: set<Edge>, path: seq<ProductId>) {
    path != [] && forall i :: 0 <= i < |path| - 1 ==> (path[i], path[i + 1]) in g
  }

  /** Some path of zero or more edges leads from `s` to `t`. */
  ghost predicate Connected(g: set<Edge>, s: ProductId, t: ProductId) {
    exists path :: IsPath(g, path) && path[0] == s && path[|path| - 1] == t
  }

  /** No path of one or more edges returns to where it started. */
  ghost predicate Acyclic(g: set<Edge>) {
    forall path :: IsPath(g, path) && |path| > 1 ==> path[0] != path[|path| - 1]
  }

  // ---------------------------------------------------------------- the recursive query

  function Targets(g: set<Edge>): set<ProductId> {
    set e | e in g :: e.1
  }

  function Successors(g: set<Edge>, front: set<ProductId>): set<ProductId> {
    set e | e in g && e.0 in front :: e.1
  }

  /** One evaluation of WITH RECURSIVE ... UNION: the rows found last are joined with the edges until
      nothing new turns up. */
  function Closure(g: set<Edge>, seen: set<ProductId>, front: set<ProductId>): (r: set<ProductId>)
    decreases |Targets(g) - seen|, if front == {} then 0 else 1
  {
    if front == {} then seen else
      var news := Successors(g, front) - seen;
      ShrinksBy(g, seen, news);
      Closure(g, seen + news, news)
  }

  lemma ShrinksBy(g: set<Edge>, seen: set<ProductId>, news: set<ProductId>)
    requires news <= Targets(g) - seen
    ensures |Targets(g) - (seen + news)| == |Targets(g) - seen| - |news|
  {
    assert Targets(g) - (seen + news) == (Targets(g) - seen) - news;
  }

  function Reachable(g: set<Edge>, s: ProductId): set<ProductId> {
    Closure(g, {s}, {s})
  }

  method ReachableQuery(g: set<Edge>, s: ProductId) returns (reachable: set<ProductId>)
    ensures reachable == Reachable(g, s)
  {
    reachable := {s};
    var working := {s};
    while working != {}
      invariant Closure(g, reachable, working) == Reachable(g, s)
      decreases |Targets(g) - reachable|, if working == {} then 0 else 1
    {
      var news := Successors(g, working) - reachable;
      ShrinksBy(g, reachable, news);
      reachable, working := reachable + news, news;
    }
  }

  lemma Extended(g: set<Edge>, s: ProductId, x: ProductId, y: ProductId)
    requires Connected(g, s, x) && (x, y) in g
    ensures Connected(g, s, y)
  {
    var path :| IsPath(g, path) && path[0] == s && path[|path| - 1] == x;
    assert IsPath(g, path + [y]);
  }

  lemma {:induction false} ClosureIsSound(g: set<Edge>, s: ProductId, seen: set<ProductId>, front: set<ProductId>)
    requires front <= seen && forall x :: x in seen ==> Connected(g, s, x)
    ensures forall x :: x in Closure(g, seen, front) ==> Connected(g, s, x)
    decreases |Targets(g) - seen|, if front == {} then 0 else 1
  {
    if front != {} {
      var news := Successors(g, front) - seen;
      ShrinksBy(g, seen, news);
      forall y | y in news ensures Connected(g, s, y) {
        var e :| e in g && e.0 in front && e.1 == y;
        Extended(g, s, e.0, y);
      }
      ClosureIsSound(g, s, seen + news, news);
    }
  }

  predicate Closed(g: set<Edge>, xs: set<ProductId>) {
    forall e :: e in g && e.0 in xs ==> e.1 in xs
  }

  lemma {:induction false} ClosureIsClosed(g: set<Edge>, seen: set<ProductId>, front: set<ProductId>)
    requires front <= seen && forall e :: e in g && e.0 in seen - front ==> e.1 in seen
    ensures seen <= Closure(g, seen, front) && Closed(g, Closure(g, seen, front))
    decreases |Targets(g) - seen|, if front == {} then 0 else 1
  {
    if front != {} {
      var news := Successors(g, front) - seen;
      ShrinksBy(g, seen, news);
      ClosureIsClosed(g, seen + news, news);
    }
  }

  lemma {:induction false} PathStaysInClosed(g: set<Edge>, xs: set<ProductId>, path: seq<ProductId>, i: nat, j: nat)
    requires IsPath(g, path) && Closed(g, xs) && i <= j < |path| && path[i] in xs
    ensures path[j] in xs
  {
    if i < j {
      PathStaysInClosed(g, xs, path, i, j - 1);
      assert (path[j - 1], path[j - 1 + 1]) in g;
    }
  }

  /** The recursive query finds exactly the products some path leads to. */
  lemma ReachableIsConnected(g: set<Edge>, s: ProductId, t: ProductId)
    ensures t in Reachable(g, s) <==> Connected(g, s, t)
  {
    assert IsPath(g, [s]);
    assert Connected(g, s, s);
    ClosureIsSound(g, s, {s}, {s});
    ClosureIsClosed(g, {s}, {s});
    if Connected(g, s, t) {
      var path :| IsPath(g, path) && path[0] == s && path[|path| - 1] == t;
      PathStaysInClosed(g, Reachable(g, s), path, 0, |path| - 1);
    }
  }

  lemma FirstEdge(g: set<Edge>, path: seq<ProductId>)
    requires IsPath(g, path) && |path| > 1
    ensures (path[0], path[1]) in g
  {
    assert (path[0], path[0 + 1]) in g;
  }

  // ---------------------------------------------------------------- publishing

  function NewEdges(product: ProductId, deps: set<ProductId>): set<Edge> {
    set t | t in deps :: (product, t)
  }

  /** What the targets of a version reach: closed, and free of the product itself when the check passes. */
  ghost predicate Fence(g: set<Edge>, product: ProductId, deps: set<ProductId>, xs: set<ProductId>) {
    Closed(g, xs) && deps <= xs && product !in xs
  }

  lemma FenceExists(g: set<Edge>, product: ProductId, deps: set<ProductId>) returns (xs: set<ProductId>)
    requires forall t :: t in deps ==> product !in Reachable(g, t)
    ensures Fence(g, product, deps, xs)
    decreases |deps|
  {
    if deps == {} { return {}; }
    var t :| t in deps;
    var rest := FenceExists(g, product, deps - {t});
    ClosureIsClosed(g, {t}, {t});
    xs := rest + Reachable(g, t);
  }

  /** A path of the larger graph that enters the fence cannot come back to the product. */
  lemma {:induction false} NeverLeavesFence(g: set<Edge>, product: ProductId, deps: set<ProductId>, xs: set<ProductId>,
                                           path: seq<ProductId>, i: nat, j: nat)
    requires Fence(g, product, deps, xs) && IsPath(g + NewEdges(product, deps), path)
    requires i <= j < |path| && path[i] in xs
    ensures path[j] in xs
  {
    if i < j {
      NeverLeavesFence(g, product, deps, xs, path, i, j - 1);
      assert (path[j - 1], path[j - 1 + 1]) in g + NewEdges(product, deps);
    }
  }

  /** Adding all the edges of a version at once keeps the graph acyclic, when none of its targets
      reaches the product in the graph before. */
  lemma PublishKeepsAcyclic(g: set<Edge>, product: ProductId, deps: set<ProductId>)
    requires Acyclic(g) && forall t :: t in deps ==> product !in Reachable(g, t)
    ensures Acyclic(g + NewEdges(product, deps))
  {
    var xs := FenceExists(g, product, deps);
    var h := g + NewEdges(product, deps);
    forall path | IsPath(h, path) && |path| > 1 ensures path[0] != path[|path| - 1] {
      var n := |path| - 1;
      if path[0] == path[n] {
        if i :| 0 <= i < n && (path[i], path[i + 1]) !in g {
          assert (path[i], path[i + 1]) in h;
          assert path[i] == product && path[i + 1] in deps;
          NeverLeavesFence(g, product, deps, xs, path, i + 1, n);
          NeverLeavesFence(g, product, deps, xs, path, 0, i);
          assert false;
        } else {
          assert IsPath(g, path);
          assert false;
        }
      }
    }
  }

  /** The check is exact: publishing an edge it refuses would close a cycle. */
  lemma RefusalIsNeeded(g: set<Edge>, product: ProductId, t: ProductId)
    requires t == product || product in Reachable(g, t)
    ensures !Acyclic(g + {(product, t)})
  {
    var h := g + {(product, t)};
    if t == product {
      assert IsPath(h, [product, product]);
    } else {
      ReachableIsConnected(g, t, product);
      var path :| IsPath(g, path) && path[0] == t && path[|path| - 1] == product;
      var cycle := [product] + path;
      forall i | 0 <= i < |cycle| - 1 ensures (cycle[i], cycle[i + 1]) in h {
        if i > 0 { assert (path[i - 1], path[i - 1 + 1]) in g; }
      }
      assert IsPath(h, cycle);
    }
  }
}
