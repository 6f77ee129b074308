/** The collapse itself: union-find over buyer indices, then grouping, explaining and sorting. */
module Collapse {
  import opened Order
  import opened FunderGraph
  import opened Clusters
  import UF = UnionFind

  // ---- The partition of indices and the graph of addresses ----

  /** Indices in one tree belong to one component. */
  ghost predicate Sound(g: Graph, at: seq<string>, rep: seq<int>)
  {
    && |rep| == |at|
    && forall i, j :: Together(rep, i, j) ==> Component(g, at[i]) == Component(g, at[j])
  }

  ghost predicate Together(rep: seq<int>, i: int, j: int)
  {
    0 <= i < |rep| && 0 <= j < |rep| && rep[i] == rep[j]
  }

  /** Every two different nodes joined by an edge are in one tree. */
  ghost predicate Complete(g: Graph, at: seq<string>, rep: seq<int>)
  {
    && |rep| == |at|
    && forall i, j :: 0 <= i < |at| && 0 <= j < |at| && i != j && Edge(g, at[i], at[j]) ==> Together(rep, i, j)
  }

  /** Later partitions keep together what was together. */
  ghost predicate Coarser(rep: seq<int>, coarser: seq<int>)
  {
    |rep| == |coarser| && forall i, j :: Together(rep, i, j) ==> Together(coarser, i, j)
  }

  lemma JoinAlongAnEdge(g: Graph, at: seq<string>, rep: seq<int>, a: int, b: int)
    requires Sound(g, at, rep) && 0 <= a < |rep| && 0 <= b < |rep|
    requires Edge(g, at[a], at[b])
    ensures Sound(g, at, UF.Joined(rep, rep[a], rep[b]))
    ensures Coarser(rep, UF.Joined(rep, rep[a], rep[b]))
    ensures Together(UF.Joined(rep, rep[a], rep[b]), a, b)
  {
    EdgeLinks(g, at[a], at[b]);
    LinkedIffSameComponent(g, at[a], at[b]);
    var joined := UF.Joined(rep, rep[a], rep[b]);
    forall i, j | Together(joined, i, j) ensures Component(g, at[i]) == Component(g, at[j]) {
      assert Together(rep, i, j) || Together(rep, i, a) || Together(rep, i, b);
      assert Together(rep, i, j) || Together(rep, j, a) || Together(rep, j, b);
    }
  }

  ghost function RepAt(at: seq<string>, rep: seq<int>, a: string): int
    requires |rep| == |at|
  {
    if a in at then var k :| 0 <= k < |at| && at[k] == a; rep[k] else -1
  }

  /** A sound and complete partition of the nodes is the partition into components. */
  lemma TogetherIffLinked(g: Graph, at: seq<string>, rep: seq<int>, i: int, j: int)
    requires Distinct(at) && g.Keys == Elems(at)
    requires Sound(g, at, rep) && Complete(g, at, rep)
    requires 0 <= i < |at| && 0 <= j < |at|
    ensures rep[i] == rep[j] <==> Linked(g, at[i], at[j])
  {
    assert at[i] in g && at[j] in g;
    LinkedIffSameComponent(g, at[i], at[j]);
    if rep[i] == rep[j] {
      assert Together(rep, i, j);
    }
    if Linked(g, at[i], at[j]) {
      var p :| PathBetween(g, p, at[i], at[j]);
      var mark := a => RepAt(at, rep, a);
      forall a, b | Edge(g, a, b) ensures mark(a) == mark(b) {
        assert a in Elems(at) && b in Elems(at);
        var k :| 0 <= k < |at| && at[k] == a;
        var l :| 0 <= l < |at| && at[l] == b;
        assert k != l ==> Together(rep, k, l);
      }
      LinkedAgree(g, mark, p);
    }
  }

  // ---- Who claims which funder ----

  ghost predicate Claims(buyers: seq<BuyerInput>, i: int, fa: string)
  {
    0 <= i < |buyers| && fa in FunderSet(buyers[i])
  }

  ghost predicate Owned(owners: map<string, seq<int>>, fa: string, i: int)
  {
    fa in owners && i in owners[fa]
  }

  /** Each funder's list holds indices that claim it, at least one. */
  ghost predicate OnlyClaims(buyers: seq<BuyerInput>, owners: map<string, seq<int>>)
  {
    forall fa :: fa in owners ==> |owners[fa]| > 0 && forall k :: 0 <= k < |owners[fa]| ==> Claims(buyers, owners[fa][k], fa)
  }

  ghost predicate AllClaims(buyers: seq<BuyerInput>, owners: map<string, seq<int>>)
  {
    forall i, fa :: Claims(buyers, i, fa) ==> Owned(owners, fa, i)
  }

  /** Each buyer names each of its funders once, as the pipeline's merge leaves them. */
  ghost predicate NoRepeatedFunder(b: BuyerInput)
  {
    forall i, j :: 0 <= i < j < |b.funders| ==> b.funders[i].address != b.funders[j].address
  }

  ghost predicate NoRepeatedFunders(buyers: seq<BuyerInput>)
  {
    forall i :: 0 <= i < |buyers| ==> NoRepeatedFunder(buyers[i])
  }

  ghost predicate Increasing(xs: seq<int>)
  {
    forall k, l :: 0 <= k < l < |xs| ==> xs[k] < xs[l]
  }

  ghost predicate AllIncreasing(owners: map<string, seq<int>>)
  {
    forall fa :: fa in owners ==> Increasing(owners[fa])
  }

  /** Every entry of every list, or of the lists of the funders from `j` on, is below `i`. */
  ghost predicate Below(owners: map<string, seq<int>>, i: int)
  {
    forall fa :: fa in owners ==> ListBelow(owners[fa], i)
  }

  ghost predicate ListBelow(xs: seq<int>, i: int)
  {
    forall k :: 0 <= k < |xs| ==> xs[k] < i
  }

  function Appended(owners: map<string, seq<int>>, fa: string, i: int): map<string, seq<int>>
  {
    owners[fa := (if fa in owners then owners[fa] else []) + [i]]
  }

  lemma AppendClaim(buyers: seq<BuyerInput>, owners: map<string, seq<int>>, fa: string, i: int)
    requires OnlyClaims(buyers, owners) && Claims(buyers, i, fa)
    ensures OnlyClaims(buyers, Appended(owners, fa, i))
    ensures Owned(Appended(owners, fa, i), fa, i)
    ensures forall f, k :: Owned(owners, f, k) ==> Owned(Appended(owners, fa, i), f, k)
  {
  }

  lemma AppendKeepsOrder(owners: map<string, seq<int>>, fa: string, i: int)
    requires AllIncreasing(owners) && Below(owners, i + 1)
    requires fa in owners ==> ListBelow(owners[fa], i)
    ensures AllIncreasing(Appended(owners, fa, i)) && Below(Appended(owners, fa, i), i + 1)
  {
  }

  method IndexFunders(buyers: seq<BuyerInput>) returns (owners: map<string, seq<int>>)
    ensures OnlyClaims(buyers, owners) && AllClaims(buyers, owners)
    ensures NoRepeatedFunders(buyers) ==> AllIncreasing(owners)
  {
    owners := map[];
    for i := 0 to |buyers|
      invariant OnlyClaims(buyers, owners)
      invariant forall k, fa :: k < i && Claims(buyers, k, fa) ==> Owned(owners, fa, k)
      invariant NoRepeatedFunders(buyers) ==> AllIncreasing(owners) && Below(owners, i)
    {
      var fs := buyers[i].funders;
      for j := 0 to |fs|
        invariant OnlyClaims(buyers, owners)
        invariant forall k, fa :: k < i && Claims(buyers, k, fa) ==> Owned(owners, fa, k)
        invariant forall l :: 0 <= l < j ==> Owned(owners, fs[l].address, i)
        invariant NoRepeatedFunders(buyers) ==> AllIncreasing(owners) && Below(owners, i + 1)
        invariant NoRepeatedFunders(buyers) ==>
          forall l :: j <= l < |fs| && fs[l].address in owners ==> ListBelow(owners[fs[l].address], i)
      {
        var fa := fs[j].address;
        assert fs[j] in fs && Claims(buyers, i, fa);
        AppendClaim(buyers, owners, fa, i);
        if NoRepeatedFunders(buyers) {
          assert NoRepeatedFunder(buyers[i]);
          AppendKeepsOrder(owners, fa, i);
        }
        owners := Appended(owners, fa, i);
      }
    }
  }

  // ---- Drawing the edges ----

  ghost predicate Index(buyers: seq<BuyerInput>, idx: map<string, int>)
  {
    && (forall i :: 0 <= i < |buyers| ==> buyers[i].address in idx && idx[buyers[i].address] == i)
    && (forall a :: a in idx ==> 0 <= idx[a] < |buyers| && buyers[idx[a]].address == a)
  }

  ghost predicate AllTogether(rep: seq<int>, xs: seq<int>)
  {
    forall k :: 0 <= k < |xs| ==> Together(rep, xs[0], xs[k])
  }

  /** Buyers that share a funder are in one tree. */
  ghost predicate SharersTogether(buyers: seq<BuyerInput>, rep: seq<int>)
  {
    forall i, j, fa :: Claims(buyers, i, fa) && Claims(buyers, j, fa) ==> Together(rep, i, j)
  }

  ghost predicate FundedBy(buyers: seq<BuyerInput>, i: int, j: int)
  {
    0 <= j < |buyers| && Claims(buyers, i, buyers[j].address)
  }

  /** A buyer among the first `n` is in one tree with every buyer that funded it. */
  ghost predicate FundedTogether(buyers: seq<BuyerInput>, rep: seq<int>, n: int)
  {
    forall i, j :: i < n && FundedBy(buyers, i, j) && i != j ==> Together(rep, i, j)
  }

  lemma ClaimsMakeEdges(buyers: seq<BuyerInput>)
    requires DistinctAddresses(buyers)
    ensures GraphOf(buyers).Keys == Elems(AddressesOf(buyers))
    ensures forall i, j, fa :: Claims(buyers, i, fa) && Claims(buyers, j, fa) ==>
              Edge(GraphOf(buyers), buyers[i].address, buyers[j].address)
    ensures forall i, j :: FundedBy(buyers, i, j) ==> Edge(GraphOf(buyers), buyers[i].address, buyers[j].address)
  {
    NodeCount(buyers);
    var g := GraphOf(buyers);
    forall i | 0 <= i < |buyers|
      ensures buyers[i].address in g && g[buyers[i].address] == FunderSet(buyers[i])
    {
      GraphAt(buyers, buyers[i]);
    }
    forall i, j, fa | Claims(buyers, i, fa) && Claims(buyers, j, fa)
      ensures Edge(g, buyers[i].address, buyers[j].address)
    {
      assert fa in g[buyers[i].address] * g[buyers[j].address];
    }
  }

  lemma TogetherIsComplete(buyers: seq<BuyerInput>, rep: seq<int>)
    requires DistinctAddresses(buyers) && |rep| == |buyers|
    requires SharersTogether(buyers, rep) && FundedTogether(buyers, rep, |buyers|)
    ensures Complete(GraphOf(buyers), AddressesOf(buyers), rep)
  {
    var g, at := GraphOf(buyers), AddressesOf(buyers);
    forall i, j | 0 <= i < |at| && 0 <= j < |at| && i != j && Edge(g, at[i], at[j]) ensures Together(rep, i, j) {
      GraphAt(buyers, buyers[i]);
      GraphAt(buyers, buyers[j]);
      if at[j] in g[at[i]] {
        assert FundedBy(buyers, i, j);
      } else if at[i] in g[at[j]] {
        assert FundedBy(buyers, j, i);
      } else {
        var fa :| fa in g[at[i]] * g[at[j]];
        assert Claims(buyers, i, fa) && Claims(buyers, j, fa);
      }
    }
  }

  /** Every union asked for was along an edge. */
  ghost predicate AlongEdges(g: Graph, at: seq<string>, log: seq<(int, int)>)
  {
    forall p :: p in log ==> 0 <= p.0 < |at| && 0 <= p.1 < |at| && Edge(g, at[p.0], at[p.1])
  }

  /** The forest so far was drawn along edges only. */
  ghost predicate Drawn(uf: UF.UnionFind, g: Graph, at: seq<string>)
    reads uf, uf.parent
  {
    uf.Valid() && Sound(g, at, uf.rep) && AlongEdges(g, at, uf.log)
  }

  /** Joins the claimers of one funder. */
  method UniteOwners(owners: seq<int>, uf: UF.UnionFind, ghost g: Graph, ghost at: seq<string>)
    requires Drawn(uf, g, at) && |owners| > 0 && 0 <= owners[0] < |at|
    requires forall k :: 0 <= k < |owners| ==> 0 <= owners[k] < |at| && Edge(g, at[owners[0]], at[owners[k]])
    modifies uf, uf.parent
    ensures Drawn(uf, g, at)
    ensures Coarser(old(uf.rep), uf.rep) && AllTogether(uf.rep, owners)
  {
    for k := 1 to |owners|
      invariant Drawn(uf, g, at)
      invariant Coarser(old(uf.rep), uf.rep) && AllTogether(uf.rep, owners[..k])
    {
      JoinAlongAnEdge(g, at, uf.rep, owners[0], owners[k]);
      uf.Union(owners[0], owners[k]);
      assert owners[..k + 1] == owners[..k] + [owners[k]];
    }
    assert owners[..|owners|] == owners;
  }

  lemma OwnersMakeEdges(buyers: seq<BuyerInput>, owners: map<string, seq<int>>, fa: string)
    requires DistinctAddresses(buyers) && OnlyClaims(buyers, owners) && fa in owners
    ensures |owners[fa]| > 0 && 0 <= owners[fa][0] < |buyers|
    ensures forall k :: 0 <= k < |owners[fa]| ==>
      && 0 <= owners[fa][k] < |buyers|
      && Edge(GraphOf(buyers), AddressesOf(buyers)[owners[fa][0]], AddressesOf(buyers)[owners[fa][k]])
  {
    ClaimsMakeEdges(buyers);
    assert forall k :: 0 <= k < |owners[fa]| ==> Claims(buyers, owners[fa][k], fa);
  }

  ghost predicate ListsTogether(owners: map<string, seq<int>>, keys: set<string>, rep: seq<int>)
  {
    forall fa :: fa in owners && fa in keys ==> AllTogether(rep, owners[fa])
  }

  lemma CoarserKeepsLists(owners: map<string, seq<int>>, keys: set<string>, rep: seq<int>, coarser: seq<int>)
    requires ListsTogether(owners, keys, rep) && Coarser(rep, coarser)
    ensures ListsTogether(owners, keys, coarser)
  {
    forall fa | fa in owners && fa in keys ensures AllTogether(coarser, owners[fa]) {
      assert AllTogether(rep, owners[fa]);
    }
  }

  lemma ListsGiveSharers(buyers: seq<BuyerInput>, owners: map<string, seq<int>>, rep: seq<int>)
    requires AllClaims(buyers, owners) && ListsTogether(owners, owners.Keys, rep)
    ensures SharersTogether(buyers, rep)
  {
    forall i, j, fa | Claims(buyers, i, fa) && Claims(buyers, j, fa) ensures Together(rep, i, j) {
      assert Owned(owners, fa, i) && Owned(owners, fa, j) && AllTogether(rep, owners[fa]);
    }
  }

  method UniteSharers(buyers: seq<BuyerInput>, owners: map<string, seq<int>>, uf: UF.UnionFind, ghost g: Graph, ghost at: seq<string>)
    requires DistinctAddresses(buyers) && g == GraphOf(buyers) && at == AddressesOf(buyers)
    requires OnlyClaims(buyers, owners) && AllClaims(buyers, owners)
    requires Drawn(uf, g, at)
    modifies uf, uf.parent
    ensures Drawn(uf, g, at)
    ensures SharersTogether(buyers, uf.rep)
  {
    var todo := owners.Keys;
    while todo != {}
      invariant Drawn(uf, g, at)
      invariant todo <= owners.Keys && ListsTogether(owners, owners.Keys - todo, uf.rep)
    {
      var fa :| fa in todo;
      ghost var before := uf.rep;
      OwnersMakeEdges(buyers, owners, fa);
      UniteOwners(owners[fa], uf, g, at);
      CoarserKeepsLists(owners, owners.Keys - todo, before, uf.rep);
      todo := todo - {fa};
    }
    ListsGiveSharers(buyers, owners, uf.rep);
  }

  /** Joins buyer `i` with each of the buyers that funded it. */
  method UniteWithFunders(i: int, fs: seq<Funder>, idx: map<string, int>, uf: UF.UnionFind, ghost g: Graph, ghost at: seq<string>)
    requires Drawn(uf, g, at) && 0 <= i < |at|
    requires forall f :: f in fs && f.address in idx ==> 0 <= idx[f.address] < |at| && Edge(g, at[i], at[idx[f.address]])
    modifies uf, uf.parent
    ensures Drawn(uf, g, at) && Coarser(old(uf.rep), uf.rep)
    ensures forall f :: f in fs && f.address in idx ==> Together(uf.rep, i, idx[f.address])
  {
    for l := 0 to |fs|
      invariant Drawn(uf, g, at) && Coarser(old(uf.rep), uf.rep)
      invariant forall k :: 0 <= k < l && fs[k].address in idx ==> Together(uf.rep, i, idx[fs[k].address])
    {
      var fa := fs[l].address;
      if fa in idx && idx[fa] != i {
        assert fs[l] in fs;
        JoinAlongAnEdge(g, at, uf.rep, i, idx[fa]);
        uf.Union(i, idx[fa]);
      }
    }
  }

  lemma FundersMakeEdges(buyers: seq<BuyerInput>, idx: map<string, int>, i: int)
    requires DistinctAddresses(buyers) && Index(buyers, idx) && 0 <= i < |buyers|
    ensures forall f :: f in buyers[i].funders && f.address in idx ==>
      && 0 <= idx[f.address] < |buyers|
      && Edge(GraphOf(buyers), AddressesOf(buyers)[i], AddressesOf(buyers)[idx[f.address]])
  {
    ClaimsMakeEdges(buyers);
    forall f | f in buyers[i].funders && f.address in idx ensures FundedBy(buyers, i, idx[f.address]) {
    }
  }

  lemma CoarserKeepsTogether(buyers: seq<BuyerInput>, idx: map<string, int>, rep: seq<int>, coarser: seq<int>, i: nat)
    requires Index(buyers, idx) && i < |buyers|
    requires SharersTogether(buyers, rep) && FundedTogether(buyers, rep, i) && Coarser(rep, coarser)
    requires forall f :: f in buyers[i].funders && f.address in idx ==> Together(coarser, i, idx[f.address])
    ensures SharersTogether(buyers, coarser) && FundedTogether(buyers, coarser, i + 1)
  {
    forall k, j | k < i + 1 && FundedBy(buyers, k, j) && k != j ensures Together(coarser, k, j) {
      if k == i {
        var f :| f in buyers[i].funders && f.address == buyers[j].address;
      } else {
        assert Together(rep, k, j);
      }
    }
  }

  method UniteFunded(buyers: seq<BuyerInput>, idx: map<string, int>, uf: UF.UnionFind, ghost g: Graph, ghost at: seq<string>)
    requires DistinctAddresses(buyers) && g == GraphOf(buyers) && at == AddressesOf(buyers) && Index(buyers, idx)
    requires Drawn(uf, g, at) && SharersTogether(buyers, uf.rep)
    modifies uf, uf.parent
    ensures Drawn(uf, g, at) && Complete(g, at, uf.rep)
  {
    for i := 0 to |buyers|
      invariant Drawn(uf, g, at)
      invariant SharersTogether(buyers, uf.rep) && FundedTogether(buyers, uf.rep, i)
    {
      ghost var before := uf.rep;
      FundersMakeEdges(buyers, idx, i);
      UniteWithFunders(i, buyers[i].funders, idx, uf, g, at);
      CoarserKeepsTogether(buyers, idx, before, uf.rep, i);
    }
    TogetherIsComplete(buyers, uf.rep);
  }

  // ---- Explaining a group ----

  ghost predicate TwoIn(xs: seq<int>, s: set<int>)
  {
    exists k, l :: 0 <= k < l < |xs| && xs[k] in s && xs[l] in s
  }

  method CountIn(xs: seq<int>, s: set<int>) returns (count: nat)
    ensures count >= 2 <==> TwoIn(xs, s)
  {
    count := 0;
    for k := 0 to |xs|
      invariant count == 0 <==> forall i :: 0 <= i < k ==> xs[i] !in s
      invariant count >= 2 <==> exists i, j :: 0 <= i < j < k && xs[i] in s && xs[j] in s
    {
      if xs[k] in s {
        count := count + 1;
      }
    }
  }

  /** The `l`-th listing of the `k`-th claimant, a member, attaches a label to `fa`. */
  ghost predicate LabelAt(buyers: seq<BuyerInput>, owners: seq<int>, memberSet: set<int>, fa: string, k: int, l: int)
  {
    && 0 <= k < |owners| && owners[k] in memberSet && 0 <= owners[k] < |buyers| && 0 <= l < |buyers[owners[k]].funders|
    && buyers[owners[k]].funders[l].address == fa && buyers[owners[k]].funders[l].label_ != ""
  }

  /** `text` is the last label found before the listing (`k`, `l`), and empty if there is none. */
  ghost predicate LastLabel(buyers: seq<BuyerInput>, owners: seq<int>, memberSet: set<int>, fa: string, k: int, l: int, text: string)
  {
    if text == "" then forall i, j :: LabelAt(buyers, owners, memberSet, fa, i, j) ==> !Earlier(i, j, k, l)
    else exists i, j ::
      && LabelAt(buyers, owners, memberSet, fa, i, j) && Earlier(i, j, k, l) && buyers[owners[i]].funders[j].label_ == text
      && forall p, q :: LabelAt(buyers, owners, memberSet, fa, p, q) && Earlier(p, q, k, l) ==> !Earlier(i, j, p, q)
  }

  predicate Earlier(i: int, j: int, k: int, l: int)
  {
    i < k || (i == k && j < l)
  }

  lemma OneListingOn(buyers: seq<BuyerInput>, owners: seq<int>, memberSet: set<int>, fa: string, k: nat, l: nat, text: string)
    requires k < |owners| && owners[k] in memberSet && 0 <= owners[k] < |buyers| && l < |buyers[owners[k]].funders|
    requires LastLabel(buyers, owners, memberSet, fa, k, l, text)
    ensures var f := buyers[owners[k]].funders[l];
      LastLabel(buyers, owners, memberSet, fa, k, l + 1, if f.address == fa && f.label_ != "" then f.label_ else text)
  {
    var f := buyers[owners[k]].funders[l];
    if f.address == fa && f.label_ != "" {
      assert LabelAt(buyers, owners, memberSet, fa, k, l) && Earlier(k, l, k, l + 1);
    } else {
      assert !LabelAt(buyers, owners, memberSet, fa, k, l);
    }
  }

  /** A claimant's list is over, or it is no member: on to the next one. */
  lemma OneClaimantOn(buyers: seq<BuyerInput>, owners: seq<int>, memberSet: set<int>, fa: string, k: nat, l: nat, text: string)
    requires k < |owners| && 0 <= owners[k] < |buyers| && (owners[k] in memberSet ==> l == |buyers[owners[k]].funders|)
    requires LastLabel(buyers, owners, memberSet, fa, k, l, text)
    ensures LastLabel(buyers, owners, memberSet, fa, k + 1, 0, text)
  {
    assert forall i, j :: LabelAt(buyers, owners, memberSet, fa, i, j) ==> (Earlier(i, j, k, l) <==> Earlier(i, j, k + 1, 0));
  }

  /** The last label that a claimant among the members attached to `fa`. */
  method LabelOf(buyers: seq<BuyerInput>, owners: seq<int>, memberSet: set<int>, fa: string) returns (text: string)
    requires forall k :: 0 <= k < |owners| ==> 0 <= owners[k] < |buyers|
    ensures LastLabel(buyers, owners, memberSet, fa, |owners|, 0, text)
  {
    text := "";
    for k := 0 to |owners|
      invariant LastLabel(buyers, owners, memberSet, fa, k, 0, text)
    {
      if owners[k] in memberSet {
        var fs := buyers[owners[k]].funders;
        for l := 0 to |fs|
          invariant LastLabel(buyers, owners, memberSet, fa, k, l, text)
        {
          OneListingOn(buyers, owners, memberSet, fa, k, l, text);
          if fs[l].address == fa && fs[l].label_ != "" {
            text := fs[l].label_;
          }
        }
        OneClaimantOn(buyers, owners, memberSet, fa, k, |fs|, text);
      } else {
        OneClaimantOn(buyers, owners, memberSet, fa, k, 0, text);
      }
    }
  }

  method FindShared(buyers: seq<BuyerInput>, owners: map<string, seq<int>>, memberSet: set<int>)
    returns (shared: Option<Funder>)
    requires OnlyClaims(buyers, owners)
    ensures shared.None? ==> forall fa :: fa in owners ==> !TwoIn(owners[fa], memberSet)
    ensures shared.Some? ==>
      var Funder(fa, text) := shared.value;
      && fa in owners && TwoIn(owners[fa], memberSet)
      && LastLabel(buyers, owners[fa], memberSet, fa, |owners[fa]|, 0, text)
  {
    shared := None;
    var todo := owners.Keys;
    while todo != {}
      invariant todo <= owners.Keys
      invariant shared.None?
      invariant forall fa :: fa in owners && fa !in todo ==> !TwoIn(owners[fa], memberSet)
    {
      var fa :| fa in todo;
      var count := CountIn(owners[fa], memberSet);
      if count >= 2 {
        assert forall k :: 0 <= k < |owners[fa]| ==> Claims(buyers, owners[fa][k], fa);
        var text := LabelOf(buyers, owners[fa], memberSet, fa);
        return Some(Funder(fa, text));
      }
      todo := todo - {fa};
    }
  }

  ghost predicate NoEmptyAddress(buyers: seq<BuyerInput>)
  {
    forall i :: 0 <= i < |buyers| ==> buyers[i].address != ""
  }

  function Pick(buyers: seq<BuyerInput>, members: seq<int>): (ms: seq<BuyerInput>)
    requires forall k :: 0 <= k < |members| ==> 0 <= members[k] < |buyers|
    ensures |ms| == |members| && forall k :: 0 <= k < |members| ==> ms[k] == buyers[members[k]]
  {
    seq(|members|, k requires 0 <= k < |members| => buyers[members[k]])
  }

  lemma MembersAreIndexed(buyers: seq<BuyerInput>, idx: map<string, int>, members: seq<int>, fa: string)
    requires Index(buyers, idx) && forall k :: 0 <= k < |members| ==> 0 <= members[k] < |buyers|
    ensures IsMember(Pick(buyers, members), fa) <==> fa in idx && idx[fa] in members
    ensures IsMember(Pick(buyers, members), fa) ==> 0 <= idx[fa] < |buyers| && buyers[idx[fa]].address == fa
  {
    var ms := Pick(buyers, members);
    if IsMember(ms, fa) {
      var k :| 0 <= k < |ms| && ms[k].address == fa;
      assert idx[fa] == members[k];
    }
    if fa in idx && idx[fa] in members {
      var k :| 0 <= k < |members| && members[k] == idx[fa];
      assert ms[k].address == fa;
    }
  }

  /** The members before the `k`-th name nobody. */
  ghost predicate NoneNamed(members: seq<BuyerInput>, k: int)
  {
    forall j, m :: j < k && FirstInList(members, j, m) ==> members[j].funders[m].address == ""
  }

  lemma NamedHere(members: seq<BuyerInput>, k: int, l: int)
    requires NoneNamed(members, k) && FirstInList(members, k, l)
    ensures members[k].funders[l].address != "" ==> ViaMeans(members, members[k].funders[l].address)
    ensures members[k].funders[l].address == "" ==> NoneNamed(members, k + 1)
  {
    forall m | FirstInList(members, k, m) ensures m == l {
    }
  }

  lemma NobodyNamedHere(members: seq<BuyerInput>, k: nat)
    requires k < |members| && NoneNamed(members, k)
    requires forall m :: 0 <= m < |members[k].funders| ==> !IsMember(members, members[k].funders[m].address)
    ensures NoneNamed(members, k + 1)
  {
  }

  /** The first named funder, in member and list order, among the members. */
  method FindVia(buyers: seq<BuyerInput>, idx: map<string, int>, members: seq<int>, memberSet: set<int>)
    returns (via: string)
    requires DistinctAddresses(buyers) && Index(buyers, idx)
    requires forall k :: 0 <= k < |members| ==> 0 <= members[k] < |buyers|
    requires memberSet == Elems(members)
    ensures ViaMeans(Pick(buyers, members), via)
  {
    ghost var ms := Pick(buyers, members);
    via := "";
    for m := 0 to |members|
      invariant via == "" && NoneNamed(ms, m)
    {
      var fs := buyers[members[m]].funders;
      var l := 0;
      while l < |fs| && !(fs[l].address in idx && idx[fs[l].address] in memberSet)
        invariant 0 <= l <= |fs|
        invariant forall k :: 0 <= k < l ==> !IsMember(ms, fs[k].address)
      {
        MembersAreIndexed(buyers, idx, members, fs[l].address);
        l := l + 1;
      }
      if l < |fs| {
        MembersAreIndexed(buyers, idx, members, fs[l].address);
        assert FirstInList(ms, m, l);
        NamedHere(ms, m, l);
        via := buyers[idx[fs[l].address]].address;
      } else {
        NobodyNamedHere(ms, m);
      }
      if via != "" {
        return;
      }
    }
  }

  // ---- Grouping ----

  /** `groups` lists, under each root, the indices of its tree below `n`. */
  ghost predicate GroupsOf(rep: seq<int>, groups: map<int, seq<int>>, n: nat)
  {
    TreesIn(rep, groups, n) && AllListed(rep, groups, n)
  }

  ghost predicate TreesIn(rep: seq<int>, groups: map<int, seq<int>>, n: nat)
  {
    forall r :: r in groups ==> |groups[r]| > 0 && Increasing(groups[r]) && InTree(rep, groups[r], r, n)
  }

  ghost predicate AllListed(rep: seq<int>, groups: map<int, seq<int>>, n: nat)
  {
    forall i :: 0 <= i < n && i < |rep| ==> rep[i] in groups && i in groups[rep[i]]
  }

  ghost predicate InTree(rep: seq<int>, xs: seq<int>, r: int, n: nat)
  {
    forall k :: 0 <= k < |xs| ==> 0 <= xs[k] < n && xs[k] < |rep| && rep[xs[k]] == r
  }

  function WithIndex(groups: map<int, seq<int>>, r: int, i: int): map<int, seq<int>>
  {
    groups[r := (if r in groups then groups[r] else []) + [i]]
  }

  lemma TreesOneMore(rep: seq<int>, groups: map<int, seq<int>>, i: nat)
    requires TreesIn(rep, groups, i) && i < |rep|
    ensures TreesIn(rep, WithIndex(groups, rep[i], i), i + 1)
  {
    forall r | r in groups ensures InTree(rep, groups[r], r, i + 1) {
      assert InTree(rep, groups[r], r, i);
    }
  }

  lemma ListedOneMore(rep: seq<int>, groups: map<int, seq<int>>, i: nat)
    requires AllListed(rep, groups, i) && i < |rep|
    ensures AllListed(rep, WithIndex(groups, rep[i], i), i + 1)
  {
    var tree := if rep[i] in groups then groups[rep[i]] else [];
    assert (tree + [i])[|tree|] == i;
  }

  lemma GroupOneMore(rep: seq<int>, groups: map<int, seq<int>>, i: nat)
    requires GroupsOf(rep, groups, i) && i < |rep|
    ensures GroupsOf(rep, WithIndex(groups, rep[i], i), i + 1)
  {
    TreesOneMore(rep, groups, i);
    ListedOneMore(rep, groups, i);
  }

  method GroupByRoot(n: nat, uf: UF.UnionFind) returns (groups: map<int, seq<int>>)
    requires uf.Valid() && |uf.rep| == n
    modifies uf.parent
    ensures uf.Valid() && GroupsOf(uf.rep, groups, n)
  {
    groups := map[];
    for i := 0 to n
      invariant uf.Valid() && GroupsOf(uf.rep, groups, i)
    {
      var r := uf.Find(i);
      GroupOneMore(uf.rep, groups, i);
      groups := WithIndex(groups, r, i);
    }
  }

  function AddressAt(buyers: seq<BuyerInput>, i: int): string
  {
    if 0 <= i < |buyers| then buyers[i].address else ""
  }

  /** A tree's indices in the order of their addresses. */
  method SortMembers(buyers: seq<BuyerInput>, tree: seq<int>) returns (members: seq<int>)
    requires DistinctAddresses(buyers) && Increasing(tree)
    requires forall i :: i in tree ==> 0 <= i < |buyers|
    ensures |members| == |tree| && forall i :: i in members <==> i in tree
    ensures forall k, l :: 0 <= k < l < |members| ==> Less(AddressAt(buyers, members[k]), AddressAt(buyers, members[l]))
  {
    var address := i => AddressAt(buyers, i);
    RankedIsStrictWeak(NoRank<int>(), NoRank<int>(), address);
    members := SortSlice(tree, Ranked(NoRank<int>(), NoRank<int>(), address));
    PermutationFacts(tree, members);
    LessIsStrictTotal();
    forall k, l | 0 <= k < l < |members| ensures Less(address(members[k]), address(members[l])) {
      assert members[k] in members && members[l] in members && members[k] != members[l];
      assert address(members[k]) != address(members[l]);
    }
  }

  /** `members` are, in address order, the indices of the buyers linked to `a`. */
  ghost predicate ListsComponent(buyers: seq<BuyerInput>, members: seq<int>, a: string)
    requires DistinctAddresses(buyers)
  {
    && (forall k :: 0 <= k < |members| ==> 0 <= members[k] < |buyers|)
    && (forall i :: 0 <= i < |buyers| ==> (i in members <==> Linked(GraphOf(buyers), a, buyers[i].address)))
    && (forall k, l :: 0 <= k < l < |members| ==> Less(AddressAt(buyers, members[k]), AddressAt(buyers, members[l])))
  }

  lemma PickedAddresses(buyers: seq<BuyerInput>, members: seq<int>, a: string)
    requires DistinctAddresses(buyers) && ListsComponent(buyers, members, a)
    ensures StrictlySortedBy(Less, AddressesOf(Pick(buyers, members)))
    ensures Elems(AddressesOf(Pick(buyers, members))) == Component(GraphOf(buyers), a)
  {
    var ms := Pick(buyers, members);
    var list := AddressesOf(ms);
    forall x ensures x in Elems(list) <==> x in Component(GraphOf(buyers), a) {
      if x in Elems(list) {
        var k :| 0 <= k < |list| && list[k] == x;
        assert members[k] in members && buyers[members[k]] in buyers;
      }
      if x in Component(GraphOf(buyers), a) {
        var b :| b in buyers && b.address == x;
        var i :| 0 <= i < |buyers| && buyers[i] == b;
        assert i in members;
        var k :| 0 <= k < |members| && members[k] == i;
        assert list[k] == x;
      }
    }
    forall k, l | 0 <= k < l < |list| ensures Less(list[k], list[l]) {
      assert list[k] == AddressAt(buyers, members[k]) && list[l] == AddressAt(buyers, members[l]);
    }
  }

  ghost function PositionOf<T>(xs: seq<T>, x: T): (k: nat)
    requires x in xs
    ensures k < |xs| && xs[k] == x
  {
    var k :| 0 <= k < |xs| && xs[k] == x; k
  }

  /** Two positions of a claim list inside the group are two members sharing the funder. */
  lemma TwoInMeansShared(buyers: seq<BuyerInput>, xs: seq<int>, members: seq<int>, fa: string)
    requires forall k :: 0 <= k < |xs| ==> Claims(buyers, xs[k], fa)
    requires forall k :: 0 <= k < |members| ==> 0 <= members[k] < |buyers|
    requires Increasing(xs) && TwoIn(xs, Elems(members))
    ensures SharedBy(Pick(buyers, members), fa)
  {
    var k, l :| 0 <= k < l < |xs| && xs[k] in Elems(members) && xs[l] in Elems(members);
    var p, q := PositionOf(members, xs[k]), PositionOf(members, xs[l]);
    var i, j := if p < q then p else q, if p < q then q else p;
    var ms := Pick(buyers, members);
    assert xs[k] < xs[l] && i < j < |ms|;
    assert Claims(buyers, xs[k], fa) && Claims(buyers, xs[l], fa);
    assert fa in FunderSet(ms[i]) && fa in FunderSet(ms[j]);
  }

  lemma SharedMeansTwoIn(buyers: seq<BuyerInput>, owners: map<string, seq<int>>, members: seq<int>, fa: string)
    requires AllClaims(buyers, owners)
    requires forall k :: 0 <= k < |members| ==> 0 <= members[k] < |buyers|
    requires Distinct(members) && SharedBy(Pick(buyers, members), fa)
    ensures fa in owners && TwoIn(owners[fa], Elems(members))
  {
    var ms := Pick(buyers, members);
    var p, q :| 0 <= p < q < |ms| && fa in FunderSet(ms[p]) && fa in FunderSet(ms[q]);
    assert Claims(buyers, members[p], fa) && Claims(buyers, members[q], fa);
    assert Owned(owners, fa, members[p]) && Owned(owners, fa, members[q]);
    var k, l := PositionOf(owners[fa], members[p]), PositionOf(owners[fa], members[q]);
    var i, j := if k < l then k else l, if k < l then l else k;
    assert 0 <= i < j < |owners[fa]| && owners[fa][i] in Elems(members) && owners[fa][j] in Elems(members);
  }

  /** Whoever shares a funder with a member is a member. */
  lemma SharersAreMembers(buyers: seq<BuyerInput>, members: seq<int>, a: string, fa: string)
    requires DistinctAddresses(buyers) && ListsComponent(buyers, members, a)
    requires SharedBy(Pick(buyers, members), fa)
    ensures forall b :: b in buyers && fa in FunderSet(b) ==> b in Pick(buyers, members)
  {
    var g, ms := GraphOf(buyers), Pick(buyers, members);
    var p, q :| 0 <= p < q < |ms| && fa in FunderSet(ms[p]) && fa in FunderSet(ms[q]);
    ClaimsMakeEdges(buyers);
    forall b | b in buyers && fa in FunderSet(b) ensures b in ms {
      var i :| 0 <= i < |buyers| && buyers[i] == b;
      assert members[p] in members && Claims(buyers, members[p], fa) && Claims(buyers, i, fa);
      EdgeLinks(g, buyers[members[p]].address, b.address);
      LinkedThrough(g, a, buyers[members[p]].address, b.address);
      var k :| 0 <= k < |members| && members[k] == i;
      assert ms[k] == b;
    }
  }

  /** A group of two or more in which nobody shares a funder was joined by one member funding another. */
  lemma SomeMemberFunded(buyers: seq<BuyerInput>, members: seq<int>, a: string)
    requires DistinctAddresses(buyers) && ListsComponent(buyers, members, a) && |members| >= 2
    requires forall fa :: !SharedBy(Pick(buyers, members), fa)
    ensures exists i, j :: i in members && j in members && i != j && FundedBy(buyers, i, j)
  {
    var g, ms := GraphOf(buyers), Pick(buyers, members);
    var x, y := ms[0].address, ms[1].address;
    assert members[0] in members && members[1] in members;
    LessIsAsymmetric(AddressAt(buyers, members[0]), AddressAt(buyers, members[1]));
    LinkedBack(g, a, x);
    LinkedThrough(g, x, a, y);
    var p :| PathBetween(g, p, x, y);
    var z := FirstStepAway(g, p);
    assert z in g;
    var b :| b in buyers && b.address == z;
    var j :| 0 <= j < |buyers| && buyers[j] == b;
    EdgeLinks(g, x, z);
    LinkedThrough(g, a, x, z);
    var k :| 0 <= k < |members| && members[k] == j;
    GraphAt(buyers, ms[0]);
    GraphAt(buyers, b);
    forall fa ensures !(fa in FunderSet(ms[0]) && fa in FunderSet(b)) {
      assert !SharedBy(ms, fa) && ms[k] == b && 0 < k;
    }
    assert FundedBy(buyers, members[0], j) || FundedBy(buyers, j, members[0]);
  }

  /** A path that ends elsewhere takes some edge from its start to a different node. */
  lemma {:induction false} FirstStepAway(g: Graph, p: seq<string>) returns (z: string)
    requires IsPath(g, p) && p[0] != p[|p| - 1]
    ensures z != p[0] && Edge(g, p[0], z)
    decreases |p|
  {
    assert Edge(g, p[0], p[1]);
    if p[1] != p[0] {
      z := p[1];
    } else {
      z := FirstStepAway(g, p[1..]);
    }
  }

  lemma ListedAreDistinct(buyers: seq<BuyerInput>, members: seq<int>, a: string)
    requires DistinctAddresses(buyers) && ListsComponent(buyers, members, a)
    ensures Distinct(members)
  {
    LessIsStrictTotal();
  }

  lemma LabelIsLast(buyers: seq<BuyerInput>, owners: map<string, seq<int>>, members: seq<int>, f: Funder)
    requires DistinctAddresses(buyers) && OnlyClaims(buyers, owners) && AllClaims(buyers, owners)
    requires f.address in owners && Increasing(owners[f.address])
    requires forall k :: 0 <= k < |members| ==> 0 <= members[k] < |buyers|
    requires LastLabel(buyers, owners[f.address], Elems(members), f.address, |owners[f.address]|, 0, f.label_)
    ensures LastLabelled(buyers, Pick(buyers, members), f)
  {
    var own, within, ms := owners[f.address], Elems(members), Pick(buyers, members);
    forall i, l | Labels(buyers, ms, f.address, i, l)
      ensures exists k :: LabelAt(buyers, own, within, f.address, k, l) && own[k] == i
    {
      var _ := ClaimantAt(buyers, owners, members, f.address, i, l);
    }
    if f.label_ != "" {
      var k, l :| LabelAt(buyers, own, within, f.address, k, l) && buyers[own[k]].funders[l].label_ == f.label_ &&
        forall p, q :: LabelAt(buyers, own, within, f.address, p, q) && Earlier(p, q, |own|, 0) ==> !Earlier(k, l, p, q);
      PickedAt(buyers, members, own[k]);
      assert Labels(buyers, ms, f.address, own[k], l) && buyers[own[k]].funders[l] == f;
      forall j, m | Labels(buyers, ms, f.address, j, m) ensures j < own[k] || (j == own[k] && m <= l) {
        var p :| LabelAt(buyers, own, within, f.address, p, m) && own[p] == j;
        assert !Earlier(k, l, p, m);
      }
    }
  }

  lemma ClaimantAt(buyers: seq<BuyerInput>, owners: map<string, seq<int>>, members: seq<int>, fa: string, i: int, l: int) returns (k: nat)
    requires DistinctAddresses(buyers) && AllClaims(buyers, owners)
    requires forall k :: 0 <= k < |members| ==> 0 <= members[k] < |buyers|
    requires Labels(buyers, Pick(buyers, members), fa, i, l)
    ensures fa in owners && LabelAt(buyers, owners[fa], Elems(members), fa, k, l) && owners[fa][k] == i
  {
    assert buyers[i].funders[l] in buyers[i].funders && Claims(buyers, i, fa) && Owned(owners, fa, i);
    k := PositionOf(owners[fa], i);
    var j := PositionOf(Pick(buyers, members), buyers[i]);
    assert buyers[members[j]] == buyers[i] && members[j] == i;
  }

  /** What FindShared found explains the group. */
  lemma SharedExplains(buyers: seq<BuyerInput>, owners: map<string, seq<int>>, members: seq<int>, a: string, f: Funder)
    requires DistinctAddresses(buyers) && ListsComponent(buyers, members, a)
    requires OnlyClaims(buyers, owners) && AllIncreasing(owners)
    requires f.address in owners && TwoIn(owners[f.address], Elems(members))
    requires LastLabelled(buyers, Pick(buyers, members), f)
    ensures NamesSharedFunder(buyers, ClusterGroup(Pick(buyers, members), Some(f), "", false))
  {
    TwoInMeansShared(buyers, owners[f.address], members, f.address);
    SharersAreMembers(buyers, members, a, f.address);
  }

  lemma NobodyShares(buyers: seq<BuyerInput>, owners: map<string, seq<int>>, members: seq<int>, a: string)
    requires DistinctAddresses(buyers) && ListsComponent(buyers, members, a) && AllClaims(buyers, owners)
    requires forall fa :: fa in owners ==> !TwoIn(owners[fa], Elems(members))
    ensures forall fa :: !SharedBy(Pick(buyers, members), fa)
  {
    ListedAreDistinct(buyers, members, a);
    forall fa ensures !SharedBy(Pick(buyers, members), fa) {
      if SharedBy(Pick(buyers, members), fa) {
        SharedMeansTwoIn(buyers, owners, members, fa);
      }
    }
  }

  lemma FundingExplains(buyers: seq<BuyerInput>, members: seq<int>, a: string, via: string)
    requires DistinctAddresses(buyers) && ListsComponent(buyers, members, a) && |members| >= 2
    requires forall fa :: !SharedBy(Pick(buyers, members), fa)
    requires NoEmptyAddress(buyers) && ViaMeans(Pick(buyers, members), via)
    ensures NamesFundingMember(ClusterGroup(Pick(buyers, members), None, via, false))
  {
    var b, f := FundedPair(buyers, members, a);
    forall m | m in Pick(buyers, members) ensures m.address != "" {
      var k := PositionOf(Pick(buyers, members), m);
      assert m == buyers[members[k]];
    }
    ViaExplains(Pick(buyers, members), via, b, f);
  }

  lemma FundedPair(buyers: seq<BuyerInput>, members: seq<int>, a: string) returns (b: BuyerInput, f: BuyerInput)
    requires DistinctAddresses(buyers) && ListsComponent(buyers, members, a) && |members| >= 2
    requires forall fa :: !SharedBy(Pick(buyers, members), fa)
    ensures b in Pick(buyers, members) && f in Pick(buyers, members) && f.address in FunderSet(b)
  {
    SomeMemberFunded(buyers, members, a);
    var i, j :| i in members && j in members && i != j && FundedBy(buyers, i, j);
    PickedAt(buyers, members, i);
    PickedAt(buyers, members, j);
    b, f := buyers[i], buyers[j];
  }

  lemma PickedAt(buyers: seq<BuyerInput>, members: seq<int>, i: int)
    requires forall k :: 0 <= k < |members| ==> 0 <= members[k] < |buyers|
    requires i in members
    ensures 0 <= i < |buyers| && buyers[i] in Pick(buyers, members)
  {
    var k := PositionOf(members, i);
    assert Pick(buyers, members)[k] == buyers[i];
  }

  /** A group of two or more, with its explanation. */
  method ExplainGroup(buyers: seq<BuyerInput>, idx: map<string, int>, owners: map<string, seq<int>>, members: seq<int>, ghost a: string)
    returns (c: ClusterGroup)
    requires DistinctAddresses(buyers) && Index(buyers, idx)
    requires OnlyClaims(buyers, owners) && AllClaims(buyers, owners)
    requires ListsComponent(buyers, members, a) && |members| >= 2
    ensures c.members == Pick(buyers, members) && !c.noFunderData
    ensures AllIncreasing(owners) && NoEmptyAddress(buyers) ==> NamesSharedFunder(buyers, c) != NamesFundingMember(c)
  {
    var memberSet := Elems(members);
    var shared := FindShared(buyers, owners, memberSet);
    if shared.Some? {
      c := ClusterGroup(Pick(buyers, members), shared, "", false);
      if AllIncreasing(owners) {
        LabelIsLast(buyers, owners, members, shared.value);
        SharedExplains(buyers, owners, members, a, shared.value);
      }
    } else {
      var via := FindVia(buyers, idx, members, memberSet);
      c := ClusterGroup(Pick(buyers, members), None, via, false);
      NobodyShares(buyers, owners, members, a);
      if NoEmptyAddress(buyers) {
        FundingExplains(buyers, members, a, via);
      }
    }
  }

  /** `tree` lists the buyers of one component. */
  ghost predicate IsTree(buyers: seq<BuyerInput>, tree: seq<int>)
    requires DistinctAddresses(buyers)
  {
    && |tree| > 0 && Increasing(tree)
    && AddressAt(buyers, tree[0]) in GraphOf(buyers)
    && forall i :: i in tree <==> 0 <= i < |buyers| && Linked(GraphOf(buyers), AddressAt(buyers, tree[0]), buyers[i].address)
  }

  ghost predicate AllTrees(buyers: seq<BuyerInput>, groups: map<int, seq<int>>)
    requires DistinctAddresses(buyers)
  {
    forall r :: r in groups ==> IsTree(buyers, groups[r])
  }

  method BuildGroup(buyers: seq<BuyerInput>, idx: map<string, int>, owners: map<string, seq<int>>, tree: seq<int>)
    returns (c: ClusterGroup)
    requires DistinctAddresses(buyers) && Index(buyers, idx)
    requires OnlyClaims(buyers, owners) && AllClaims(buyers, owners)
    requires IsTree(buyers, tree)
    ensures IsGroup(buyers, c) && AddressSet(c) == Component(GraphOf(buyers), AddressAt(buyers, tree[0]))
    ensures AllIncreasing(owners) && NoEmptyAddress(buyers) ==> Explained(buyers, c)
  {
    ghost var a := AddressAt(buyers, tree[0]);
    var members := SortMembers(buyers, tree);
    assert forall k :: 0 <= k < |members| ==> members[k] in members;
    ListIsNotEmpty(buyers, members, a);
    if |members| == 1 {
      c := ClusterGroup(Pick(buyers, members), None, "", !buyers[members[0]].funderChecked);
    } else {
      c := ExplainGroup(buyers, idx, owners, members, a);
    }
    ListIsGroup(buyers, members, a, c);
  }

  lemma ListIsNotEmpty(buyers: seq<BuyerInput>, members: seq<int>, a: string)
    requires DistinctAddresses(buyers) && ListsComponent(buyers, members, a) && a in GraphOf(buyers)
    ensures |members| > 0
  {
    PickedAddresses(buyers, members, a);
    LinkedToSelf(GraphOf(buyers), a);
    assert a in Elems(AddressesOf(Pick(buyers, members)));
  }

  lemma ListIsGroup(buyers: seq<BuyerInput>, members: seq<int>, a: string, c: ClusterGroup)
    requires DistinctAddresses(buyers) && ListsComponent(buyers, members, a) && a in GraphOf(buyers) && |members| > 0
    requires c.members == Pick(buyers, members)
    requires c.noFunderData <==> |members| == 1 && !buyers[members[0]].funderChecked
    ensures IsGroup(buyers, c) && AddressSet(c) == Component(GraphOf(buyers), a)
  {
    PickedAddresses(buyers, members, a);
    GraphAt(buyers, buyers[members[0]]);
    forall b | b in c.members ensures b in buyers {
      var k := PositionOf(c.members, b);
      assert b == buyers[members[k]];
    }
  }

  // ---- The whole pass ----

  function Size(c: ClusterGroup): real
  {
    |c.members| as real
  }

  function FirstAddress(c: ClusterGroup): string
  {
    if |c.members| == 0 then "" else c.members[0].address
  }

  /** Groups of different components, sorted by size and first address, are strictly sorted. */
  lemma SortedGroupsAreStrict(buyers: seq<BuyerInput>, clusters: seq<ClusterGroup>)
    requires DistinctAddresses(buyers)
    requires forall c :: c in clusters ==> IsGroup(buyers, c)
    requires forall i, j :: 0 <= i < j < |clusters| ==> AddressSet(clusters[i]) != AddressSet(clusters[j])
    requires SortedBy(Ranked(Size, NoRank<ClusterGroup>(), FirstAddress), clusters)
    ensures StrictlySortedBy(ListLess, AddressLists(clusters))
  {
    var lists := AddressLists(clusters);
    forall i, j | 0 <= i < j < |clusters| ensures ListLess(lists[i], lists[j]) {
      var c, d := clusters[i], clusters[j];
      assert c in clusters && d in clusters;
      DisjointGroups(buyers, c, d);
      LessIsTotal(FirstAddress(c), FirstAddress(d));
      var less := Ranked(Size, NoRank<ClusterGroup>(), FirstAddress);
      assert !less(d, c);
      assert Size(c) > Size(d) || (Size(c) == Size(d) && Less(FirstAddress(c), FirstAddress(d)));
      assert |lists[i]| == |c.members| && |lists[j]| == |d.members|;
    }
  }

  lemma DisjointGroups(buyers: seq<BuyerInput>, c: ClusterGroup, d: ClusterGroup)
    requires DistinctAddresses(buyers) && IsGroup(buyers, c) && IsGroup(buyers, d)
    requires AddressSet(c) != AddressSet(d)
    ensures |c.members| > 0 && |d.members| > 0 && FirstAddress(c) != FirstAddress(d)
  {
    ComponentsPartition(GraphOf(buyers));
    assert AddressSet(c) != {} && AddressSet(d) != {};
    assert |c.members| > 0 && |d.members| > 0;
    assert AddressesOf(c.members)[0] in AddressSet(c) && AddressesOf(d.members)[0] in AddressSet(d);
  }

  /** The index from address to buyer, and how many buyers were checked. */
  method IndexBuyers(buyers: seq<BuyerInput>) returns (idx: map<string, int>, covered: nat)
    requires DistinctAddresses(buyers)
    ensures Index(buyers, idx) && covered == |Checked(buyers)|
  {
    idx, covered := map[], 0;
    for i := 0 to |buyers|
      invariant Index(buyers[..i], idx) && covered == |Checked(buyers[..i])|
    {
      CheckOneMore(buyers, i);
      idx := idx[buyers[i].address := i];
      if buyers[i].funderChecked {
        covered := covered + 1;
      }
    }
    assert buyers[..|buyers|] == buyers;
  }

  lemma TreeIsComponent(buyers: seq<BuyerInput>, rep: seq<int>, groups: map<int, seq<int>>, r: int)
    requires DistinctAddresses(buyers)
    requires Sound(GraphOf(buyers), AddressesOf(buyers), rep) && Complete(GraphOf(buyers), AddressesOf(buyers), rep)
    requires GroupsOf(rep, groups, |buyers|) && r in groups
    ensures IsTree(buyers, groups[r])
  {
    var g, at := GraphOf(buyers), AddressesOf(buyers);
    NodeCount(buyers);
    assert InTree(rep, groups[r], r, |rep|);
    var i0 := groups[r][0];
    assert at[i0] in Elems(at);
    forall i ensures i in groups[r] <==> 0 <= i < |at| && Linked(g, at[i0], at[i]) {
      if i in groups[r] {
        var k := PositionOf(groups[r], i);
      }
      if 0 <= i < |at| {
        TogetherIffLinked(g, at, rep, i0, i);
      }
    }
  }

  /** The component of the tree under `r`. */
  ghost function TreeSet(buyers: seq<BuyerInput>, groups: map<int, seq<int>>, r: int): set<string>
    requires DistinctAddresses(buyers)
  {
    if r in groups && |groups[r]| > 0 then Component(GraphOf(buyers), AddressAt(buyers, groups[r][0])) else {}
  }

  lemma TreesDiffer(buyers: seq<BuyerInput>, rep: seq<int>, groups: map<int, seq<int>>, r: int, s: int)
    requires DistinctAddresses(buyers)
    requires Sound(GraphOf(buyers), AddressesOf(buyers), rep) && Complete(GraphOf(buyers), AddressesOf(buyers), rep)
    requires GroupsOf(rep, groups, |buyers|) && r in groups && s in groups && r != s
    ensures TreeSet(buyers, groups, r) != TreeSet(buyers, groups, s)
  {
    var g, at := GraphOf(buyers), AddressesOf(buyers);
    NodeCount(buyers);
    assert InTree(rep, groups[r], r, |rep|) && InTree(rep, groups[s], s, |rep|);
    var i, j := groups[r][0], groups[s][0];
    assert at[i] in Elems(at) && at[j] in Elems(at);
    TogetherIffLinked(g, at, rep, i, j);
    LinkedIffSameComponent(g, at[i], at[j]);
  }

  /** `clusters` are the groups of the trees under `roots`. */
  ghost predicate Built(buyers: seq<BuyerInput>, groups: map<int, seq<int>>, clusters: seq<ClusterGroup>, roots: seq<int>)
    requires DistinctAddresses(buyers)
  {
    && |clusters| == |roots|
    && forall k :: 0 <= k < |clusters| ==> BuiltFrom(buyers, groups, clusters[k], roots[k])
  }

  ghost predicate BuiltFrom(buyers: seq<BuyerInput>, groups: map<int, seq<int>>, c: ClusterGroup, r: int)
    requires DistinctAddresses(buyers)
  {
    IsGroup(buyers, c) && AddressSet(c) == TreeSet(buyers, groups, r)
  }

  ghost predicate AllExplained(buyers: seq<BuyerInput>, clusters: seq<ClusterGroup>)
  {
    forall c :: c in clusters ==> Explained(buyers, c)
  }

  /** One group per tree, in whatever order the map is walked. */
  method BuildGroups(buyers: seq<BuyerInput>, idx: map<string, int>, owners: map<string, seq<int>>, groups: map<int, seq<int>>)
    returns (clusters: seq<ClusterGroup>, ghost roots: seq<int>)
    requires DistinctAddresses(buyers) && Index(buyers, idx)
    requires OnlyClaims(buyers, owners) && AllClaims(buyers, owners)
    requires AllTrees(buyers, groups)
    ensures Distinct(roots) && Elems(roots) == groups.Keys && Built(buyers, groups, clusters, roots)
    ensures AllIncreasing(owners) && NoEmptyAddress(buyers) ==> AllExplained(buyers, clusters)
  {
    clusters, roots := [], [];
    var todo := groups.Keys;
    ghost var done := {};
    while todo != {}
      invariant todo !! done && todo + done == groups.Keys
      invariant BuiltFor(buyers, groups, clusters, roots, done)
      invariant AllIncreasing(owners) && NoEmptyAddress(buyers) ==> AllExplained(buyers, clusters)
    {
      ghost var some := SomeElement(todo);
      var r :| r in todo;
      var c := BuildGroup(buyers, idx, owners, groups[r]);
      assert BuiltFrom(buyers, groups, c, r);
      OneGroupMore(buyers, groups, clusters, roots, done, c, r);
      clusters, roots := clusters + [c], roots + [r];
      done, todo := done + {r}, todo - {r};
    }
  }

  /** The groups built so far are those of the roots in `done`. */
  ghost predicate BuiltFor(buyers: seq<BuyerInput>, groups: map<int, seq<int>>, clusters: seq<ClusterGroup>, roots: seq<int>, done: set<int>)
    requires DistinctAddresses(buyers)
  {
    Distinct(roots) && Elems(roots) == done && Built(buyers, groups, clusters, roots)
  }

  lemma OneGroupMore(
    buyers: seq<BuyerInput>, groups: map<int, seq<int>>, clusters: seq<ClusterGroup>, roots: seq<int>, done: set<int>, c: ClusterGroup, r: int)
    requires DistinctAddresses(buyers) && BuiltFor(buyers, groups, clusters, roots, done) && r !in done
    requires BuiltFrom(buyers, groups, c, r)
    ensures BuiltFor(buyers, groups, clusters + [c], roots + [r], done + {r})
  {
    AppendNew(roots, r);
  }

  /** The trees are the components, each once. */
  lemma TreesAreComponents(buyers: seq<BuyerInput>, rep: seq<int>, groups: map<int, seq<int>>)
    requires DistinctAddresses(buyers)
    requires Sound(GraphOf(buyers), AddressesOf(buyers), rep) && Complete(GraphOf(buyers), AddressesOf(buyers), rep)
    requires GroupsOf(rep, groups, |buyers|)
    ensures AllTrees(buyers, groups)
    ensures forall r, s :: r in groups && s in groups && r != s ==> TreeSet(buyers, groups, r) != TreeSet(buyers, groups, s)
    ensures forall comp :: comp in Components(GraphOf(buyers)) ==> exists r :: r in groups && TreeSet(buyers, groups, r) == comp
  {
    var g, at := GraphOf(buyers), AddressesOf(buyers);
    forall r | r in groups ensures IsTree(buyers, groups[r]) {
      TreeIsComponent(buyers, rep, groups, r);
    }
    forall r, s | r in groups && s in groups && r != s ensures TreeSet(buyers, groups, r) != TreeSet(buyers, groups, s) {
      TreesDiffer(buyers, rep, groups, r, s);
    }
    forall comp | comp in Components(g) ensures exists r :: r in groups && TreeSet(buyers, groups, r) == comp {
      var a :| a in g && comp == Component(g, a);
      ComponentHasTree(buyers, rep, groups, a);
    }
  }

  lemma ComponentHasTree(buyers: seq<BuyerInput>, rep: seq<int>, groups: map<int, seq<int>>, a: string)
    requires DistinctAddresses(buyers) && a in GraphOf(buyers)
    requires Sound(GraphOf(buyers), AddressesOf(buyers), rep) && Complete(GraphOf(buyers), AddressesOf(buyers), rep)
    requires GroupsOf(rep, groups, |buyers|)
    ensures exists r :: r in groups && TreeSet(buyers, groups, r) == Component(GraphOf(buyers), a)
  {
    var g, at := GraphOf(buyers), AddressesOf(buyers);
    NodeCount(buyers);
    assert a in Elems(at);
    var i := PositionOf(at, a);
    TreeIsComponent(buyers, rep, groups, rep[i]);
    LinkedIffSameComponent(g, AddressAt(buyers, groups[rep[i]][0]), a);
  }

  /** The trees are named by the roots. */
  lemma TreesAreRoots(parent: seq<int>, rep: seq<int>, depth: seq<nat>, groups: map<int, seq<int>>)
    requires UF.Forest(parent, rep, depth) && GroupsOf(rep, groups, |rep|)
    ensures groups.Keys == UF.Roots(rep)
  {
    forall r ensures r in groups <==> r in UF.Roots(rep) {
      if r in groups {
        assert InTree(rep, groups[r], r, |rep|);
        assert UF.Linked(parent, rep, depth, groups[r][0]);
      }
    }
  }

  /**
   The unions, and the buyers grouped by the root they end up under: the groups
   are the connected components, whatever order the maps are walked in.
   */
  method UniteAndGroup(buyers: seq<BuyerInput>, idx: map<string, int>, owners: map<string, seq<int>>)
    returns (groups: map<int, seq<int>>, ghost log: seq<(int, int)>)
    requires DistinctAddresses(buyers) && Index(buyers, idx)
    requires OnlyClaims(buyers, owners) && AllClaims(buyers, owners)
    ensures TreesAre(buyers, groups)
    ensures AlongEdges(GraphOf(buyers), AddressesOf(buyers), log)
    ensures UF.Pairs(|buyers|, log) && |groups| == |buyers| - UF.Joins(|buyers|, log)
  {
    var n := |buyers|;
    var uf := new UF.UnionFind(n);
    ghost var g, at := GraphOf(buyers), AddressesOf(buyers);
    NodeCount(buyers);
    UniteSharers(buyers, owners, uf, g, at);
    UniteFunded(buyers, idx, uf, g, at);
    groups := GroupByRoot(n, uf);
    TreesAreRoots(uf.parent[..], uf.rep, uf.depth, groups);
    TreesAreComponents(buyers, uf.rep, groups);
    log := uf.log;
    UF.ReplayRoots(n, log);
    assert |groups| == |groups.Keys|;
  }

  /** The groups are the components' trees: one each, all different, none missing. */
  ghost predicate TreesAre(buyers: seq<BuyerInput>, groups: map<int, seq<int>>)
    requires DistinctAddresses(buyers)
  {
    && AllTrees(buyers, groups)
    && (forall r, s :: r in groups && s in groups && r != s ==> TreeSet(buyers, groups, r) != TreeSet(buyers, groups, s))
    && (forall comp :: comp in Components(GraphOf(buyers)) ==> exists r :: r in groups && TreeSet(buyers, groups, r) == comp)
  }

  /**
   The collapse. `log` is the unions it asked for, all along edges: M is N minus
   those of them that joined two different roots.
   */
  method Cluster(buyers: seq<BuyerInput>) returns (r: ClusterResult, ghost log: seq<(int, int)>)
    requires DistinctAddresses(buyers)
    ensures IsClustering(buyers, r)
    ensures NoRepeatedFunders(buyers) && NoEmptyAddress(buyers) ==> AllExplained(buyers, r.clusters)
    ensures AlongEdges(GraphOf(buyers), AddressesOf(buyers), log)
    ensures UF.Pairs(|buyers|, log) && r.m == r.n - UF.Joins(|buyers|, log)
  {
    if |buyers| == 0 {
      assert GraphOf(buyers) == map[] && Components(GraphOf(buyers)) == {};
      return ClusterResult(0, 0, 0, []), [];
    }
    var idx, covered := IndexBuyers(buyers);
    var owners := IndexFunders(buyers);
    var groups;
    groups, log := UniteAndGroup(buyers, idx, owners);
    var clusters := SortedGroups(buyers, idx, owners, groups);
    r := ClusterResult(|buyers|, |clusters|, covered, clusters);
  }

  method SortedGroups(buyers: seq<BuyerInput>, idx: map<string, int>, owners: map<string, seq<int>>, groups: map<int, seq<int>>)
    returns (sorted: seq<ClusterGroup>)
    requires DistinctAddresses(buyers) && Index(buyers, idx)
    requires OnlyClaims(buyers, owners) && AllClaims(buyers, owners)
    requires TreesAre(buyers, groups)
    ensures |sorted| == |groups|
    ensures IsClustering(buyers, ClusterResult(|buyers|, |sorted|, |Checked(buyers)|, sorted))
    ensures AllIncreasing(owners) && NoEmptyAddress(buyers) ==> AllExplained(buyers, sorted)
  {
    ghost var roots;
    var clusters;
    clusters, roots := BuildGroups(buyers, idx, owners, groups);
    DistinctSize(roots);
    RankedIsStrictWeak(Size, NoRank<ClusterGroup>(), FirstAddress);
    sorted := SortSlice(clusters, Ranked(Size, NoRank<ClusterGroup>(), FirstAddress));
    SortedIsClustering(buyers, groups, clusters, roots, sorted);
  }

  lemma SortedIsClustering(buyers: seq<BuyerInput>, groups: map<int, seq<int>>, clusters: seq<ClusterGroup>, roots: seq<int>, sorted: seq<ClusterGroup>)
    requires DistinctAddresses(buyers)
    requires Distinct(roots) && Elems(roots) == groups.Keys && Built(buyers, groups, clusters, roots)
    requires forall r, s :: r in groups && s in groups && r != s ==>
      TreeSet(buyers, groups, r) != TreeSet(buyers, groups, s)
    requires forall comp :: comp in Components(GraphOf(buyers)) ==>
      exists r :: r in groups && TreeSet(buyers, groups, r) == comp
    requires multiset(sorted) == multiset(clusters)
    requires SortedBy(Ranked(Size, NoRank<ClusterGroup>(), FirstAddress), sorted)
    ensures IsClustering(buyers, ClusterResult(|buyers|, |sorted|, |Checked(buyers)|, sorted))
  {
    PermutationFacts(clusters, sorted);
    GroupsDiffer(buyers, groups, clusters, roots);
    forall i, j | 0 <= i < j < |sorted| ensures AddressSet(sorted[i]) != AddressSet(sorted[j]) {
      assert sorted[i] in clusters && sorted[j] in clusters && sorted[i] != sorted[j];
    }
    forall c | c in sorted ensures IsGroup(buyers, c) {
      var k := PositionOf(clusters, c);
      assert BuiltFrom(buyers, groups, clusters[k], roots[k]);
    }
    SortedGroupsAreStrict(buyers, sorted);
    forall comp | comp in Components(GraphOf(buyers)) ensures exists c :: c in sorted && AddressSet(c) == comp {
      var c := GroupOfComponent(buyers, groups, clusters, roots, comp);
      assert c in sorted;
    }
  }

  lemma GroupsDiffer(buyers: seq<BuyerInput>, groups: map<int, seq<int>>, clusters: seq<ClusterGroup>, roots: seq<int>)
    requires DistinctAddresses(buyers)
    requires Distinct(roots) && Elems(roots) == groups.Keys && Built(buyers, groups, clusters, roots)
    requires forall r, s :: r in groups && s in groups && r != s ==>
      TreeSet(buyers, groups, r) != TreeSet(buyers, groups, s)
    ensures forall i, j :: 0 <= i < j < |clusters| ==> AddressSet(clusters[i]) != AddressSet(clusters[j])
    ensures Distinct(clusters)
  {
    forall i, j | 0 <= i < j < |clusters| ensures AddressSet(clusters[i]) != AddressSet(clusters[j]) {
      assert BuiltFrom(buyers, groups, clusters[i], roots[i]) && BuiltFrom(buyers, groups, clusters[j], roots[j]);
      assert roots[i] in Elems(roots) && roots[j] in Elems(roots) && roots[i] != roots[j];
    }
  }

  lemma GroupOfComponent(
    buyers: seq<BuyerInput>, groups: map<int, seq<int>>, clusters: seq<ClusterGroup>, roots: seq<int>, comp: set<string>)
    returns (c: ClusterGroup)
    requires DistinctAddresses(buyers) && Elems(roots) == groups.Keys && Built(buyers, groups, clusters, roots)
    requires exists r :: r in groups && TreeSet(buyers, groups, r) == comp
    ensures c in clusters && AddressSet(c) == comp
  {
    var r :| r in groups && TreeSet(buyers, groups, r) == comp;
    assert r in Elems(roots);
    var k := PositionOf(roots, r);
    assert BuiltFrom(buyers, groups, clusters[k], roots[k]);
    c := clusters[k];
  }
}
