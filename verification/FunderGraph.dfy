/**
 What the cluster collapse means, said without the algorithm: buyers are the
 nodes of a graph, observed first-funder data draws its edges, and clusters
 are its connected components.
 */
module FunderGraph {

  /** Each buyer's address with the set of its first-funder addresses. */
  type Graph = map<string, set<string>>

  /** The two buyers share a funder, or one of them funded the other. */
  ghost predicate Edge(g: Graph, a: string, b: string)
  {
    a in g && b in g && (g[a] * g[b] != {} || b in g[a] || a in g[b])
  }

  ghost predicate IsPath(g: Graph, p: seq<string>)
  {
    && |p| > 0
    && (forall i :: 0 <= i < |p| ==> p[i] in g)
    && forall i, j :: 0 <= i < |p| - 1 && j == i + 1 ==> Edge(g, p[i], p[j])
  }

  ghost predicate PathBetween(g: Graph, p: seq<string>, a: string, b: string)
  {
    IsPath(g, p) && p[0] == a && p[|p| - 1] == b
  }

  ghost predicate Linked(g: Graph, a: string, b: string)
  {
    exists p :: PathBetween(g, p, a, b)
  }

  ghost function Component(g: Graph, a: string): set<string>
  {
    set b | b in g && Linked(g, a, b)
  }

  ghost function Components(g: Graph): set<set<string>>
  {
    set a | a in g :: Component(g, a)
  }

  lemma LinkedToSelf(g: Graph, a: string)
    requires a in g
    ensures Linked(g, a, a)
  {
    assert PathBetween(g, [a], a, a);
  }

  lemma EdgeLinks(g: Graph, a: string, b: string)
    requires Edge(g, a, b)
    ensures Linked(g, a, b)
  {
    assert PathBetween(g, [a, b], a, b);
  }

  lemma LinkedBack(g: Graph, a: string, b: string)
    requires Linked(g, a, b)
    ensures Linked(g, b, a)
  {
    var p :| PathBetween(g, p, a, b);
    var q := seq(|p|, i requires 0 <= i < |p| => p[|p| - 1 - i]);
    forall i, j | 0 <= i < |q| - 1 && j == i + 1 ensures Edge(g, q[i], q[j]) {
      assert Edge(g, p[|p| - 1 - j], p[|p| - 1 - i]);
    }
    assert PathBetween(g, q, b, a);
  }

  lemma LinkedThrough(g: Graph, a: string, b: string, c: string)
    requires Linked(g, a, b) && Linked(g, b, c)
    ensures Linked(g, a, c)
  {
    var p :| PathBetween(g, p, a, b);
    var q :| PathBetween(g, q, b, c);
    assert PathBetween(g, p + q[1..], a, c);
  }

  /** Anything constant along every edge is constant along every chain of them. */
  lemma {:induction false} LinkedAgree<L>(g: Graph, mark: string -> L, p: seq<string>)
    requires IsPath(g, p)
    requires forall a, b :: Edge(g, a, b) ==> mark(a) == mark(b)
    ensures mark(p[0]) == mark(p[|p| - 1])
    decreases |p|
  {
    if |p| > 1 {
      assert Edge(g, p[0], p[1]);
      LinkedAgree(g, mark, p[1..]);
    }
  }

  lemma LinkedIffSameComponent(g: Graph, a: string, b: string)
    requires a in g && b in g
    ensures Linked(g, a, b) <==> Component(g, a) == Component(g, b)
    ensures Linked(g, a, b) <==> b in Component(g, a)
  {
    LinkedToSelf(g, b);
    assert b in Component(g, b);
    if Linked(g, a, b) {
      LinkedBack(g, a, b);
      forall c ensures c in Component(g, a) <==> c in Component(g, b) {
        if c in Component(g, a) { LinkedThrough(g, b, a, c); }
        if c in Component(g, b) { LinkedThrough(g, a, b, c); }
      }
    }
  }

  /** The components partition the buyers. */
  lemma ComponentsPartition(g: Graph)
    ensures forall a :: a in g ==> a in Component(g, a)
    ensures forall c :: c in Components(g) ==> c != {} && c <= g.Keys
    ensures forall c, d :: c in Components(g) && d in Components(g) ==> c == d || c !! d
  {
    forall a | a in g ensures a in Component(g, a) { LinkedToSelf(g, a); }
    forall c, d | c in Components(g) && d in Components(g) ensures c == d || c !! d {
      if x :| x in c && x in d {
        var a :| a in g && c == Component(g, a);
        var b :| b in g && d == Component(g, b);
        LinkedIffSameComponent(g, a, x);
        LinkedIffSameComponent(g, b, x);
      }
    }
  }

  // ---- How many components there are ----

  ghost function Image<A, B>(s: set<A>, f: A -> B): set<B>
  {
    set x | x in s :: f(x)
  }

  lemma ImageSize<A, B>(s: set<A>, f: A -> B)
    ensures |Image(s, f)| <= |s|
    ensures (forall x, y :: x in s && y in s && f(x) == f(y) ==> x == y) ==> |Image(s, f)| == |s|
  {
    if s == {} {
      assert Image(s, f) == {};
    } else {
      var a :| a in s;
      var rest := s - {a};
      ImageSize(rest, f);
      assert Image(s, f) == Image(rest, f) + {f(a)};
    }
  }

  lemma ImageCollapses<A, B>(s: set<A>, f: A -> B, a: A, b: A)
    requires a in s && b in s && a != b && f(a) == f(b)
    ensures |Image(s, f)| < |s|
  {
    ImageSize(s - {a}, f);
    assert Image(s, f) == Image(s - {a}, f);
  }

  /** No two different buyers are joined by an edge. */
  ghost predicate NoEdges(g: Graph)
  {
    forall a, b :: a != b ==> !Edge(g, a, b)
  }

  /** There are as many clusters as buyers exactly when no edge joins two of them. */
  lemma AsManyComponentsAsNodesIffNoEdges(g: Graph)
    ensures |Components(g)| <= |g|
    ensures |Components(g)| == |g| <==> NoEdges(g)
  {
    var f := x => Component(g, x);
    assert Components(g) == Image(g.Keys, f);
    assert |g| == |g.Keys|;
    ImageSize(g.Keys, f);
    if NoEdges(g) {
      forall x, y | x in g && y in g && f(x) == f(y) ensures x == y {
        LinkedIffSameComponent(g, x, y);
        var p :| PathBetween(g, p, x, y);
        LinkedAgree(g, a => a, p);
      }
    } else {
      var a, b :| a != b && Edge(g, a, b);
      EdgeLinks(g, a, b);
      LinkedIffSameComponent(g, a, b);
      ImageCollapses(g.Keys, f, a, b);
    }
  }

  /** There is one cluster exactly when every two buyers are linked. */
  lemma OneComponentIffAllLinked(g: Graph)
    requires g != map[]
    ensures |Components(g)| >= 1
    ensures |Components(g)| == 1 <==> forall a, b :: a in g && b in g ==> Linked(g, a, b)
  {
    var a0 :| a0 in g;
    var c0 := Component(g, a0);
    assert c0 in Components(g);
    assert Components(g) >= {c0} && |{c0}| == 1;
    if forall a, b :: a in g && b in g ==> Linked(g, a, b) {
      forall c | c in Components(g) ensures c == c0 {
        var a :| a in g && c == Component(g, a);
        LinkedIffSameComponent(g, a0, a);
      }
      assert Components(g) == {c0};
    } else if |Components(g)| == 1 {
      assert |Components(g) - {c0}| == 0;
      forall a, b | a in g && b in g ensures Linked(g, a, b) {
        assert Component(g, a) in Components(g) && Component(g, b) in Components(g);
        LinkedIffSameComponent(g, a, b);
      }
      assert false;
    }
  }

  // ---- More funder data ----

  /** The same buyers with at least the funder data of `g`. */
  ghost predicate Extends(g: Graph, h: Graph)
  {
    g.Keys == h.Keys && forall a :: a in g ==> g[a] <= h[a]
  }

  lemma MoreDataKeepsLinks(g: Graph, h: Graph, a: string, b: string)
    requires Extends(g, h) && Linked(g, a, b)
    ensures Linked(h, a, b)
  {
    var p :| PathBetween(g, p, a, b);
    forall i, j | 0 <= i < |p| - 1 && j == i + 1 ensures Edge(h, p[i], p[j]) {
      assert Edge(g, p[i], p[j]);
      assert h[p[i]] * h[p[j]] >= g[p[i]] * g[p[j]];
    }
    assert PathBetween(h, p, a, b);
  }

  /** The part of `h`'s partition that the buyers in `c` fall into. */
  ghost function Coarse(h: Graph, c: set<string>): set<string>
  {
    set b | b in h && exists a :: a in c && Linked(h, a, b)
  }

  lemma CoarseComponent(g: Graph, h: Graph, a: string)
    requires Extends(g, h) && a in g
    ensures Coarse(h, Component(g, a)) == Component(h, a)
    ensures Component(g, a) <= Component(h, a)
  {
    LinkedToSelf(g, a);
    forall x | x in Component(g, a) ensures Component(h, x) == Component(h, a) && x in Component(h, a) {
      MoreDataKeepsLinks(g, h, a, x);
      LinkedIffSameComponent(h, a, x);
    }
    forall b | b in Coarse(h, Component(g, a)) ensures b in Component(h, a) {
      var x :| x in Component(g, a) && Linked(h, x, b);
      assert b in Component(h, x);
    }
  }

  /** More funder data can merge clusters and can never split one or add one. */
  lemma MoreDataOnlyCoarsens(g: Graph, h: Graph)
    requires Extends(g, h)
    ensures forall c :: c in Components(g) ==> exists d :: d in Components(h) && c <= d
    ensures |Components(h)| <= |Components(g)|
  {
    var coarse := c => Coarse(h, c);
    var image := Image(Components(g), coarse);
    forall c | c in Components(g)
      ensures coarse(c) in Components(h) && c <= coarse(c)
    {
      var a :| a in g && c == Component(g, a);
      CoarseComponent(g, h, a);
    }
    forall d | d in Components(h) ensures d in image {
      var a :| a in h && d == Component(h, a);
      CoarseComponent(g, h, a);
      assert Component(g, a) in Components(g);
    }
    assert image == Components(h);
    ImageSize(Components(g), coarse);
  }
}
