/** What a verdict claims about the buyers, through clustering, the decision table and the signal floor. */
module Falsifier {
  import opened FunderGraph
  import opened Clusters
  import opened Verdict
  import opened Order

  /** Everything besides the buyers that a token's verdict depends on. */
  datatype Market = Market(smartFlow: real, exchFlow: real, exitCheckable: bool, boughtUSD: real, minSignalUSD: real)
  {
    predicate ExitFires()
    {
      ExitSignal(smartFlow, exchFlow, exitCheckable)
    }

    predicate AboveFloor()
    {
      boughtUSD >= minSignalUSD
    }
  }

  function VerdictOf(r: ClusterResult, mk: Market): Verdict
  {
    DecideWithFloor(r.n, r.m, r.covered, mk.smartFlow, mk.exchFlow, mk.exitCheckable, mk.boughtUSD, mk.minSignalUSD)
  }

  // ---- The three questions about the buyers ----

  ghost predicate AllChecked(buyers: seq<BuyerInput>)
  {
    forall b :: b in buyers ==> b.funderChecked
  }

  /** No two buyers share a funder. */
  ghost predicate NoSharedFunder(buyers: seq<BuyerInput>)
  {
    forall i, j :: 0 <= i < j < |buyers| ==> FunderSet(buyers[i]) !! FunderSet(buyers[j])
  }

  /** No buyer was funded by another. */
  ghost predicate NoneFundedByAnother(buyers: seq<BuyerInput>)
  {
    forall i, j :: 0 <= i < |buyers| && 0 <= j < |buyers| && i != j ==> buyers[j].address !in FunderSet(buyers[i])
  }

  /** Every two buyers are linked by a chain of shared funders and funding. */
  ghost predicate AllLinked(buyers: seq<BuyerInput>)
    requires DistinctAddresses(buyers)
  {
    forall b, c :: b in buyers && c in buyers ==> Linked(GraphOf(buyers), b.address, c.address)
  }

  lemma NoEdgesIffNothingShared(buyers: seq<BuyerInput>)
    requires DistinctAddresses(buyers)
    ensures NoEdges(GraphOf(buyers)) <==> NoSharedFunder(buyers) && NoneFundedByAnother(buyers)
  {
    var g := GraphOf(buyers);
    forall i | 0 <= i < |buyers| ensures buyers[i].address in g && g[buyers[i].address] == FunderSet(buyers[i]) {
      GraphAt(buyers, buyers[i]);
    }
    if NoEdges(g) {
      forall i, j | 0 <= i < |buyers| && 0 <= j < |buyers| && i != j
        ensures FunderSet(buyers[i]) !! FunderSet(buyers[j]) && buyers[j].address !in FunderSet(buyers[i])
      {
        assert !Edge(g, buyers[i].address, buyers[j].address);
        assert buyers[i].address != buyers[j].address;
        assert forall x :: x in FunderSet(buyers[i]) && x in FunderSet(buyers[j]) ==>
            x in g[buyers[i].address] * g[buyers[j].address];
      }
    }
    if NoSharedFunder(buyers) && NoneFundedByAnother(buyers) {
      forall a, b | a != b ensures !Edge(g, a, b) {
        if a in g && b in g {
          var i :| 0 <= i < |buyers| && buyers[i].address == a;
          var j :| 0 <= j < |buyers| && buyers[j].address == b;
          assert FunderSet(buyers[i]) !! FunderSet(buyers[j]);
        }
      }
    }
  }

  lemma FullCoverageIffAllChecked(buyers: seq<BuyerInput>)
    requires DistinctAddresses(buyers)
    ensures |Checked(buyers)| <= |buyers|
    ensures |Checked(buyers)| == |buyers| <==> AllChecked(buyers)
  {
    NodeCount(buyers);
    var all := GraphOf(buyers).Keys;
    assert |all| == |buyers| && Checked(buyers) <= all;
    SubsetSize(Checked(buyers), all);
    if AllChecked(buyers) {
      assert all <= Checked(buyers);
    }
    if Checked(buyers) == all {
      forall b | b in buyers ensures b.funderChecked {
        GraphAt(buyers, b);
      }
    }
  }

  lemma OneClusterIffAllLinked(buyers: seq<BuyerInput>)
    requires DistinctAddresses(buyers) && |buyers| > 0
    ensures |Components(GraphOf(buyers))| == 1 <==> AllLinked(buyers)
  {
    GraphAt(buyers, buyers[0]);
    OneComponentIffAllLinked(GraphOf(buyers));
    forall b | b in buyers ensures b.address in GraphOf(buyers) {
      GraphAt(buyers, b);
    }
  }

  /** The counts the decision table reads, in terms of the buyers. */
  lemma Counts(buyers: seq<BuyerInput>, r: ClusterResult)
    requires DistinctAddresses(buyers) && IsClustering(buyers, r)
    ensures r.n == |buyers| && r.m <= r.n && (|buyers| > 0 ==> 1 <= r.m)
    ensures r.m == r.n <==> NoSharedFunder(buyers) && NoneFundedByAnother(buyers)
    ensures |buyers| > 0 ==> (r.m == 1 <==> AllLinked(buyers))
    ensures r.covered <= r.n && (r.covered == r.n <==> AllChecked(buyers))
  {
    ClusterCount(buyers, r);
    NodeCount(buyers);
    AsManyComponentsAsNodesIffNoEdges(GraphOf(buyers));
    NoEdgesIffNothingShared(buyers);
    FullCoverageIffAllChecked(buyers);
    if |buyers| > 0 {
      OneClusterIffAllLinked(buyers);
      GraphAt(buyers, buyers[0]);
      OneComponentIffAllLinked(GraphOf(buyers));
    }
  }

  /** The counts as answers: `apart`, `linked` and `checked` are what M == N, M == 1 and full coverage mean. */
  ghost predicate CountsSay(r: ClusterResult, apart: bool, linked: bool, checked: bool)
  {
    && r.m <= r.n && r.covered <= r.n && (r.n > 0 ==> 1 <= r.m)
    && (r.m == r.n <==> apart)
    && (r.n > 0 ==> (r.m == 1 <==> linked))
    && (r.covered == r.n <==> checked)
  }

  /** The decision table and the floor, read as conditions on those answers. */
  ghost predicate TableSays(v: Verdict, judged: bool, apart: bool, linked: bool, checked: bool, mk: Market)
  {
    var fires := mk.ExitFires();
    var heard := mk.AboveFloor();
    && (v == Confirmed <==> judged && apart && checked && mk.exitCheckable && !fires && heard)
    && (v == Thin <==> judged && linked && !fires)
    && (v == Concentrated <==> judged && !linked && !apart && !fires)
    && (v == Both <==> judged && !apart && fires)
    && (v == Unverified <==> judged && apart && !checked && heard)
    && (v == Distributing <==> judged && apart && checked && fires && heard)
    && (v == Independent <==> judged && apart && checked && !mk.exitCheckable && heard)
    && (v == ExitOnly <==> fires && (!judged || (apart && !heard)))
    && (v == Weak <==> !fires && (!judged || (apart && !heard)))
  }

  lemma TableFromCounts(r: ClusterResult, mk: Market, apart: bool, linked: bool, checked: bool)
    requires CountsSay(r, apart, linked, checked)
    ensures TableSays(VerdictOf(r, mk), r.n >= 3, apart, linked, checked, mk)
  {
  }

  /**
   Every verdict, end to end: exactly when each is given, in terms of the buyers
   themselves. The conditions are exclusive and leave nothing out.
   */
  lemma EveryVerdictIff(buyers: seq<BuyerInput>, r: ClusterResult, mk: Market)
    requires DistinctAddresses(buyers) && IsClustering(buyers, r)
    ensures TableSays(VerdictOf(r, mk), |buyers| >= 3, NoSharedFunder(buyers) && NoneFundedByAnother(buyers),
                      AllLinked(buyers), AllChecked(buyers), mk)
  {
    Counts(buyers, r);
    TableFromCounts(r, mk, NoSharedFunder(buyers) && NoneFundedByAnother(buyers), AllLinked(buyers), AllChecked(buyers));
  }

  /**
   CONFIRMED, spelled out: three or more buyers, all of them checked, no two
   sharing a funder, none funded by another, an exchange side that was observed
   and shows no exit, and enough bought to be a signal.
   */
  lemma ConfirmedIff(buyers: seq<BuyerInput>, r: ClusterResult, mk: Market)
    requires DistinctAddresses(buyers) && IsClustering(buyers, r)
    ensures VerdictOf(r, mk) == Confirmed <==>
      && |buyers| >= 3 && AllChecked(buyers) && NoSharedFunder(buyers) && NoneFundedByAnother(buyers)
      && mk.exitCheckable && !(mk.smartFlow > 0.0 && mk.exchFlow > 0.0)
      && mk.boughtUSD >= mk.minSignalUSD
  {
    EveryVerdictIff(buyers, r, mk);
  }

  // ---- Absent data ----

  /** The same buyers, with at least the funder edges of `less`. */
  ghost predicate MoreEdges(less: seq<BuyerInput>, more: seq<BuyerInput>)
    requires DistinctAddresses(less) && DistinctAddresses(more)
  {
    Extends(GraphOf(less), GraphOf(more))
  }

  /** A verdict that rests on a link that was found. */
  predicate AssertsCollapse(v: Verdict)
  {
    v == Thin || v == Concentrated || v == Both
  }

  /** A verdict that rests on having looked and found no link. */
  predicate AssertsIndependence(v: Verdict)
  {
    v == Confirmed || v == Independent || v == Distributing
  }

  /**
   Absent data never manufactures a collapse: a collapse found with less funder
   data stands with more, whatever the coverage. THIN and BOTH stay as they are
   and CONCENTRATED can only become THIN.
   */
  lemma MoreDataKeepsCollapse(less: seq<BuyerInput>, more: seq<BuyerInput>, r: ClusterResult, s: ClusterResult, mk: Market)
    requires DistinctAddresses(less) && DistinctAddresses(more) && MoreEdges(less, more)
    requires IsClustering(less, r) && IsClustering(more, s)
    ensures s.n == r.n && s.m <= r.m
    ensures VerdictOf(r, mk) in {Thin, Both} ==> VerdictOf(s, mk) == VerdictOf(r, mk)
    ensures VerdictOf(r, mk) == Concentrated ==> VerdictOf(s, mk) in {Concentrated, Thin}
    ensures |less| < 3 ==> VerdictOf(s, mk) == VerdictOf(r, mk)
    ensures !AssertsCollapse(VerdictOf(s, mk)) ==> !AssertsCollapse(VerdictOf(r, mk))
  {
    MoreDataFewerClusters(less, more, r, s);
    VerdictCoarsens(r, s, mk);
  }

  lemma MoreDataFewerClusters(less: seq<BuyerInput>, more: seq<BuyerInput>, r: ClusterResult, s: ClusterResult)
    requires DistinctAddresses(less) && DistinctAddresses(more) && MoreEdges(less, more)
    requires IsClustering(less, r) && IsClustering(more, s)
    ensures s.n == r.n == |less| && s.m <= r.m && r.m <= r.n && (r.n > 0 ==> 1 <= s.m)
  {
    ClusterCount(less, r);
    ClusterCount(more, s);
    NodeCount(less);
    NodeCount(more);
    MoreDataOnlyCoarsens(GraphOf(less), GraphOf(more));
    Counts(less, r);
    Counts(more, s);
  }

  lemma VerdictCoarsens(r: ClusterResult, s: ClusterResult, mk: Market)
    requires s.n == r.n && s.m <= r.m && r.m <= r.n && (r.n > 0 ==> 1 <= s.m)
    ensures VerdictOf(r, mk) in {Thin, Both} ==> VerdictOf(s, mk) == VerdictOf(r, mk)
    ensures VerdictOf(r, mk) == Concentrated ==> VerdictOf(s, mk) in {Concentrated, Thin}
    ensures r.n < 3 ==> VerdictOf(s, mk) == VerdictOf(r, mk)
  {
  }

  /**
   Absent data never manufactures independence: once independence is asserted,
   filling in the buyers that were not checked cannot take it back.
   */
  lemma UncheckedDataCannotRetractIndependence(
    partial: seq<BuyerInput>, full: seq<BuyerInput>, r: ClusterResult, s: ClusterResult, mk: Market)
    requires DistinctAddresses(partial) && DistinctAddresses(full) && MoreEdges(partial, full)
    requires Checked(partial) <= Checked(full)
    requires forall a :: a in Checked(partial) ==> GraphOf(partial)[a] == GraphOf(full)[a]
    requires IsClustering(partial, r) && IsClustering(full, s)
    ensures AssertsIndependence(VerdictOf(r, mk)) ==> VerdictOf(s, mk) == VerdictOf(r, mk)
  {
    if AssertsIndependence(VerdictOf(r, mk)) {
      CoverageOf(partial, r);
      IndependenceNeedsCoverage(r, mk);
      AllCheckedSameGraph(partial, full);
      SameCountsSameVerdict(partial, full, r, s, mk);
    }
  }

  lemma CoverageOf(buyers: seq<BuyerInput>, r: ClusterResult)
    requires DistinctAddresses(buyers) && IsClustering(buyers, r)
    ensures r.covered == |Checked(buyers)| <= r.n == |buyers|
  {
    FullCoverageIffAllChecked(buyers);
  }

  lemma IndependenceNeedsCoverage(r: ClusterResult, mk: Market)
    requires r.covered <= r.n && AssertsIndependence(VerdictOf(r, mk))
    ensures r.covered == r.n
  {
  }

  lemma SameCountsSameVerdict(b1: seq<BuyerInput>, b2: seq<BuyerInput>, r1: ClusterResult, r2: ClusterResult, mk: Market)
    requires DistinctAddresses(b1) && DistinctAddresses(b2)
    requires GraphOf(b1) == GraphOf(b2) && Checked(b1) == Checked(b2)
    requires IsClustering(b1, r1) && IsClustering(b2, r2)
    ensures VerdictOf(r1, mk) == VerdictOf(r2, mk)
  {
    ClusteringIsDetermined(b1, b2, r1, r2);
  }

  lemma AllCheckedSameGraph(partial: seq<BuyerInput>, full: seq<BuyerInput>)
    requires DistinctAddresses(partial) && DistinctAddresses(full) && MoreEdges(partial, full)
    requires Checked(partial) <= Checked(full)
    requires forall a :: a in Checked(partial) ==> GraphOf(partial)[a] == GraphOf(full)[a]
    requires |Checked(partial)| == |partial|
    ensures GraphOf(partial) == GraphOf(full) && Checked(partial) == Checked(full)
  {
    NodeCount(partial);
    assert Checked(partial) <= GraphOf(partial).Keys && |GraphOf(partial).Keys| == |partial|;
    SubsetSize(Checked(partial), GraphOf(partial).Keys);
    assert Checked(full) <= GraphOf(full).Keys;
  }
}
