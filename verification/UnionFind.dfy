/** The union-find over buyer indices that the cluster collapse is built on. */
module UnionFind {

  /**
   `rep` names each element's root and `depth` strictly decreases along every
   parent link, so the links are acyclic and end at the root.
   */
  ghost predicate Forest(parent: seq<int>, rep: seq<int>, depth: seq<nat>)
  {
    && |rep| == |depth| == |parent|
    && forall i :: 0 <= i < |parent| ==> Linked(parent, rep, depth, i)
  }

  ghost predicate Linked(parent: seq<int>, rep: seq<int>, depth: seq<nat>, i: int)
    requires |rep| == |depth| == |parent| && 0 <= i < |parent|
  {
    && 0 <= parent[i] < |parent| && 0 <= rep[i] < |parent|
    && rep[parent[i]] == rep[i] && rep[rep[i]] == rep[i]
    && (parent[i] == i <==> rep[i] == i)
    && (parent[i] != i ==> depth[parent[i]] < depth[i] && depth[rep[i]] < depth[i])
  }

  ghost predicate LinksDescend(parent: seq<int>, depth: seq<nat>)
  {
    && |depth| == |parent|
    && forall i :: 0 <= i < |parent| ==>
         0 <= parent[i] < |parent| && (parent[i] != i ==> depth[parent[i]] < depth[i])
  }

  /** Where the parent links lead from `x`. */
  ghost function Climb(parent: seq<int>, depth: seq<nat>, x: int): (r: int)
    requires LinksDescend(parent, depth) && 0 <= x < |parent|
    ensures 0 <= r < |parent| && parent[r] == r
    decreases depth[x]
  {
    if parent[x] == x then x else Climb(parent, depth, parent[x])
  }

  /** In a forest the parent links from every element do lead to its `rep`. */
  lemma {:induction false} RepIsWhereTheLinksLead(parent: seq<int>, rep: seq<int>, depth: seq<nat>, x: int)
    requires Forest(parent, rep, depth) && 0 <= x < |parent|
    ensures LinksDescend(parent, depth) && Climb(parent, depth, x) == rep[x]
    decreases depth[x]
  {
    forall i | 0 <= i < |parent|
      ensures 0 <= parent[i] < |parent| && (parent[i] != i ==> depth[parent[i]] < depth[i])
    {
      assert Linked(parent, rep, depth, i);
    }
    assert Linked(parent, rep, depth, x);
    if parent[x] != x {
      RepIsWhereTheLinksLead(parent, rep, depth, parent[x]);
    }
  }

  ghost function Roots(rep: seq<int>): set<int>
  {
    set i | 0 <= i < |rep| && rep[i] == i
  }

  /** The partition after joining the trees rooted at `a` and `b` under `a`. */
  ghost function Joined(rep: seq<int>, a: int, b: int): (joined: seq<int>)
    ensures |joined| == |rep|
  {
    seq(|rep|, i requires 0 <= i < |rep| => if rep[i] == b then a else rep[i])
  }

  /** Joining two different roots removes exactly one of them. */
  lemma JoinRemovesOneRoot(rep: seq<int>, a: int, b: int)
    requires 0 <= a < |rep| && 0 <= b < |rep| && rep[a] == a && rep[b] == b && a != b
    ensures Roots(Joined(rep, a, b)) == Roots(rep) - {b}
    ensures |Roots(Joined(rep, a, b))| == |Roots(rep)| - 1
  {
    assert Roots(Joined(rep, a, b)) == Roots(rep) - {b};
  }

  lemma IdentityRoots(n: nat)
    ensures |Roots(seq(n, i => i))| == n
  {
    if n > 0 {
      IdentityRoots(n - 1);
      assert Roots(seq(n, i => i)) == Roots(seq(n - 1, i => i)) + {n - 1};
    } else {
      assert Roots(seq(0, i => i)) == {};
    }
  }

  lemma CompressKeepsForest(parent: seq<int>, rep: seq<int>, depth: seq<nat>, x: int)
    requires Forest(parent, rep, depth) && 0 <= x < |parent|
    ensures Linked(parent, rep, depth, x) && Forest(parent[x := rep[x]], rep, depth)
  {
    assert Linked(parent, rep, depth, x);
    var compressed := parent[x := rep[x]];
    forall i | 0 <= i < |parent| ensures Linked(compressed, rep, depth, i) {
      assert Linked(parent, rep, depth, i);
    }
  }

  ghost function DepthsAfterJoin(rep: seq<int>, depth: seq<nat>, a: int, b: int): (deeper: seq<nat>)
    requires |rep| == |depth| && 0 <= a < |depth|
    ensures |deeper| == |depth|
  {
    seq(|depth|, i requires 0 <= i < |depth| => if rep[i] == b then depth[i] + depth[a] + 1 else depth[i])
  }

  lemma LinkKeepsForest(parent: seq<int>, rep: seq<int>, depth: seq<nat>, a: int, b: int)
    requires Forest(parent, rep, depth) && 0 <= a < |parent| && 0 <= b < |parent|
    requires rep[a] == a && rep[b] == b && a != b
    ensures Forest(parent[b := a], Joined(rep, a, b), DepthsAfterJoin(rep, depth, a, b))
  {
    var parent', rep', depth' := parent[b := a], Joined(rep, a, b), DepthsAfterJoin(rep, depth, a, b);
    forall i | 0 <= i < |parent| ensures Linked(parent', rep', depth', i) {
      assert Linked(parent, rep, depth, i) && Linked(parent, rep, depth, a) && Linked(parent, rep, depth, b);
    }
  }

  // ---- What a sequence of unions comes to ----

  ghost predicate Pairs(n: nat, log: seq<(int, int)>)
  {
    forall p :: p in log ==> 0 <= p.0 < n && 0 <= p.1 < n
  }

  /** The partition after the unions in `log`, starting from `n` single elements. */
  ghost function Replay(n: nat, log: seq<(int, int)>): (rep: seq<int>)
    requires Pairs(n, log)
    ensures |rep| == n
  {
    if |log| == 0 then seq(n, i => i)
    else
      var rep, p := Replay(n, log[..|log| - 1]), log[|log| - 1];
      Joined(rep, rep[p.0], rep[p.1])
  }

  /** How many of those unions joined two different roots. */
  ghost function Joins(n: nat, log: seq<(int, int)>): nat
    requires Pairs(n, log)
  {
    if |log| == 0 then 0
    else
      var rep, p := Replay(n, log[..|log| - 1]), log[|log| - 1];
      Joins(n, log[..|log| - 1]) + (if rep[p.0] == rep[p.1] then 0 else 1)
  }

  lemma {:induction false} ReplayRoots(n: nat, log: seq<(int, int)>)
    requires Pairs(n, log)
    ensures forall i :: 0 <= i < n ==> 0 <= Replay(n, log)[i] < n && Replay(n, log)[Replay(n, log)[i]] == Replay(n, log)[i]
    ensures |Roots(Replay(n, log))| == n - Joins(n, log)
    decreases |log|
  {
    if |log| == 0 {
      IdentityRoots(n);
    } else {
      var rest, p := log[..|log| - 1], log[|log| - 1];
      ReplayRoots(n, rest);
      var rep := Replay(n, rest);
      if rep[p.0] == rep[p.1] {
        assert Joined(rep, rep[p.0], rep[p.1]) == rep;
      } else {
        JoinRemovesOneRoot(rep, rep[p.0], rep[p.1]);
      }
    }
  }

  lemma ReplayOneMore(n: nat, log: seq<(int, int)>, a: int, b: int)
    requires Pairs(n, log) && 0 <= a < n && 0 <= b < n
    ensures Pairs(n, log + [(a, b)])
    ensures Replay(n, log + [(a, b)]) == Joined(Replay(n, log), Replay(n, log)[a], Replay(n, log)[b])
  {
    assert (log + [(a, b)])[..|log|] == log;
  }

  class UnionFind {
    const parent: array<int>
    ghost var rep: seq<int>
    ghost var depth: seq<nat>
    /** the unions asked for so far */
    ghost var log: seq<(int, int)>

    ghost predicate Valid()
      reads this, parent
    {
      && Forest(parent[..], rep, depth)
      && Pairs(parent.Length, log) && rep == Replay(parent.Length, log)
    }

    constructor (n: nat)
      ensures Valid() && fresh(parent) && parent.Length == n
      ensures log == [] && rep == seq(n, i => i)
    {
      parent := new int[n](i => i);
      rep := seq(n, i => i);
      depth := seq(n, i => 0);
      log := [];
    }

    /** Path compression rewrites links and leaves every element's root alone. */
    method Find(x: int) returns (r: int)
      requires Valid() && 0 <= x < parent.Length
      modifies parent
      ensures Valid()
      ensures 0 <= r < parent.Length && r == rep[x] && rep[r] == r && parent[x] == r
      decreases depth[x]
    {
      assert Linked(parent[..], rep, depth, x);
      if parent[x] != x {
        var root := Find(parent[x]);
        CompressKeepsForest(parent[..], rep, depth, x);
        ghost var compressed := parent[..][x := root];
        parent[x] := root;
        assert parent[..] == compressed;
      }
      assert Linked(parent[..], rep, depth, x);
      return parent[x];
    }

    method Union(a: int, b: int)
      requires Valid() && 0 <= a < parent.Length && 0 <= b < parent.Length
      modifies this, parent
      ensures Valid()
      ensures rep == Joined(old(rep), old(rep[a]), old(rep[b]))
      ensures log == old(log) + [(a, b)]
    {
      ReplayOneMore(parent.Length, log, a, b);
      var ra := Find(a);
      var rb := Find(b);
      log := log + [(a, b)];
      if ra != rb {
        LinkKeepsForest(parent[..], rep, depth, ra, rb);
        ghost var linked := parent[..][rb := ra];
        parent[rb] := ra;
        assert parent[..] == linked;
        depth := DepthsAfterJoin(rep, depth, ra, rb);
        rep := Joined(rep, ra, rb);
      } else {
        assert Joined(rep, ra, rb) == rep;
      }
    }
  }
}
