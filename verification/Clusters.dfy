/** The cluster collapse of one token's buyers, and why it collapsed. */
module Clusters {
  import opened Order
  import opened FunderGraph

  datatype Option<T> = None | Some(value: T)

  datatype Funder = Funder(address: string, label_: string)

  datatype BuyerInput = BuyerInput(
    address: string,
    label_: string,
    pnlUSD: real,
    winRate: real,
    funders: seq<Funder>,
    funderChecked: bool)

  datatype ClusterGroup = ClusterGroup(
    members: seq<BuyerInput>,
    sharedFunder: Option<Funder>,
    viaBuyer: string,
    noFunderData: bool)

  datatype ClusterResult = ClusterResult(n: nat, m: nat, covered: nat, clusters: seq<ClusterGroup>)

  // ---- What the result has to be ----

  ghost predicate DistinctAddresses(buyers: seq<BuyerInput>)
  {
    forall i, j :: 0 <= i < j < |buyers| ==> buyers[i].address != buyers[j].address
  }

  function FunderSet(b: BuyerInput): set<string>
  {
    set f | f in b.funders :: f.address
  }

  ghost function GraphOf(buyers: seq<BuyerInput>): Graph
    requires DistinctAddresses(buyers)
  {
    map b | b in buyers :: b.address := FunderSet(b)
  }

  ghost function Checked(buyers: seq<BuyerInput>): set<string>
  {
    set b | b in buyers && b.funderChecked :: b.address
  }

  function AddressesOf(members: seq<BuyerInput>): (s: seq<string>)
    ensures |s| == |members|
  {
    seq(|members|, i requires 0 <= i < |members| => members[i].address)
  }

  ghost function AddressSet(c: ClusterGroup): set<string>
  {
    Elems(AddressesOf(c.members))
  }

  ghost function AddressLists(clusters: seq<ClusterGroup>): (s: seq<seq<string>>)
    ensures |s| == |clusters|
  {
    seq(|clusters|, i requires 0 <= i < |clusters| => AddressesOf(clusters[i].members))
  }

  /** Longest list first, then by first address. */
  predicate ListLess(a: seq<string>, b: seq<string>)
  {
    |a| > |b| || (|a| == |b| && |a| > 0 && Less(a[0], b[0]))
  }

  ghost predicate IsGroup(buyers: seq<BuyerInput>, c: ClusterGroup)
    requires DistinctAddresses(buyers)
  {
    && (forall b :: b in c.members ==> b in buyers)
    && StrictlySortedBy(Less, AddressesOf(c.members))
    && AddressSet(c) in Components(GraphOf(buyers))
    && (c.noFunderData <==> |c.members| == 1 && c.members[0].address !in Checked(buyers))
  }

  /** The result lists the connected components of the funder graph, once each and in order. */
  ghost predicate IsClustering(buyers: seq<BuyerInput>, r: ClusterResult)
    requires DistinctAddresses(buyers)
  {
    && r.n == |buyers| && r.m == |r.clusters| && r.covered == |Checked(buyers)|
    && (forall c :: c in r.clusters ==> IsGroup(buyers, c))
    && (forall comp :: comp in Components(GraphOf(buyers)) ==>
          exists c :: c in r.clusters && AddressSet(c) == comp)
    && StrictlySortedBy(ListLess, AddressLists(r.clusters))
  }

  /** Two different members name `fa` as a funder. */
  ghost predicate SharedBy(members: seq<BuyerInput>, fa: string)
  {
    exists i, j :: 0 <= i < j < |members| && fa in FunderSet(members[i]) && fa in FunderSet(members[j])
  }

  /** The `l`-th listing of the `i`-th buyer, a member, attaches a label to `fa`. */
  ghost predicate Labels(buyers: seq<BuyerInput>, members: seq<BuyerInput>, fa: string, i: int, l: int)
  {
    && 0 <= i < |buyers| && buyers[i] in members && 0 <= l < |buyers[i].funders|
    && buyers[i].funders[l].address == fa && buyers[i].funders[l].label_ != ""
  }

  /** The funder's label is the last one a member attached, the buyers taken in their given order; it is empty only if none did. */
  ghost predicate LastLabelled(buyers: seq<BuyerInput>, members: seq<BuyerInput>, f: Funder)
  {
    if f.label_ == "" then forall i, l :: !Labels(buyers, members, f.address, i, l)
    else exists i, l ::
      && Labels(buyers, members, f.address, i, l) && buyers[i].funders[l] == f
      && forall j, m :: Labels(buyers, members, f.address, j, m) ==> j < i || (j == i && m <= l)
  }

  /** The named funder is shared by two members and by no buyer outside the group. */
  ghost predicate NamesSharedFunder(buyers: seq<BuyerInput>, c: ClusterGroup)
  {
    && c.sharedFunder.Some? && c.viaBuyer == ""
    && SharedBy(c.members, c.sharedFunder.value.address)
    && (forall b :: b in buyers && c.sharedFunder.value.address in FunderSet(b) ==> b in c.members)
    && LastLabelled(buyers, c.members, c.sharedFunder.value)
  }

  ghost predicate IsMember(members: seq<BuyerInput>, a: string)
  {
    exists j :: 0 <= j < |members| && members[j].address == a
  }

  /** The `l`-th funder of the `i`-th member is a member, and no funder listed before it is, by that member or an earlier one. */
  ghost predicate FirstMemberFunder(members: seq<BuyerInput>, i: int, l: int)
  {
    && 0 <= i < |members| && 0 <= l < |members[i].funders| && IsMember(members, members[i].funders[l].address)
    && (forall m :: 0 <= m < l ==> !IsMember(members, members[i].funders[m].address))
    && forall k, m :: 0 <= k < i && 0 <= m < |members[k].funders| ==> !IsMember(members, members[k].funders[m].address)
  }

  ghost predicate NamesFirstMemberFunder(members: seq<BuyerInput>, via: string)
  {
    exists i, l :: FirstMemberFunder(members, i, l) && members[i].funders[l].address == via
  }

  /** The `m`-th funder of the `k`-th member is the first in its list that is a member. */
  ghost predicate FirstInList(members: seq<BuyerInput>, k: int, m: int)
  {
    && 0 <= k < |members| && 0 <= m < |members[k].funders| && IsMember(members, members[k].funders[m].address)
    && forall l :: 0 <= l < m ==> !IsMember(members, members[k].funders[l].address)
  }

  /**
   What the search for the buyer a group collapsed through finds: for the first
   member whose first funder among the members has a name, that name.
   */
  ghost predicate ViaMeans(members: seq<BuyerInput>, via: string)
  {
    if via == "" then forall k, m :: FirstInList(members, k, m) ==> members[k].funders[m].address == ""
    else exists i, l ::
      && FirstInList(members, i, l) && members[i].funders[l].address == via
      && forall k, m :: k < i && FirstInList(members, k, m) ==> members[k].funders[m].address == ""
  }

  /**
   No two members share a funder, and the named address is the first funder, in
   member and list order, that is a member.
   */
  ghost predicate NamesFundingMember(c: ClusterGroup)
  {
    && c.sharedFunder.None?
    && (forall fa :: !SharedBy(c.members, fa))
    && NamesFirstMemberFunder(c.members, c.viaBuyer)
  }

  ghost predicate Explained(buyers: seq<BuyerInput>, c: ClusterGroup)
  {
    if |c.members| == 1 then c.sharedFunder.None? && c.viaBuyer == ""
    else NamesSharedFunder(buyers, c) != NamesFundingMember(c)
  }

  // ---- The buyer a group is said to have collapsed through ----

  /** A list with a member among its funders has a first one. */
  lemma {:induction false} SomeFirstInList(members: seq<BuyerInput>, k: nat, m: nat) returns (l: nat)
    requires k < |members| && m < |members[k].funders| && IsMember(members, members[k].funders[m].address)
    ensures l <= m && FirstInList(members, k, l)
    decreases m
  {
    if l' :| 0 <= l' < m && IsMember(members, members[k].funders[l'].address) {
      l := SomeFirstInList(members, k, l');
    } else {
      l := m;
    }
  }

  predicate SelfFunded(b: BuyerInput)
  {
    b.address in FunderSet(b)
  }

  /** The named buyer funded some other member. */
  ghost predicate FundedAnother(c: ClusterGroup)
  {
    exists b :: b in c.members && b.address != c.viaBuyer && c.viaBuyer in FunderSet(b)
  }

  /**
   What the name promises: the named buyer funded another member exactly when it
   does not list itself as its own funder. A group without self-funded members
   is therefore always explained by one member funding another.
   */
  lemma ViaFundedAnotherIff(c: ClusterGroup)
    requires DistinctAddresses(c.members) && NamesFundingMember(c)
    ensures FundedAnother(c) <==> forall b :: b in c.members && b.address == c.viaBuyer ==> !SelfFunded(b)
  {
    var i, l :| FirstMemberFunder(c.members, i, l) && c.members[i].funders[l].address == c.viaBuyer;
    assert c.members[i] in c.members && c.members[i].funders[l] in c.members[i].funders;
    assert c.viaBuyer in FunderSet(c.members[i]);
    var j :| 0 <= j < |c.members| && c.members[j].address == c.viaBuyer;
    assert !SharedBy(c.members, c.viaBuyer);
    assert SelfFunded(c.members[j]) ==> forall k :: 0 <= k < |c.members| && k != j ==> c.viaBuyer !in FunderSet(c.members[k]);
  }

  /** Where some member funded a member, nobody shares and no address is empty, what is found explains the group. */
  lemma ViaExplains(members: seq<BuyerInput>, via: string, b: BuyerInput, f: BuyerInput)
    requires forall fa :: !SharedBy(members, fa)
    requires forall m :: m in members ==> m.address != ""
    requires b in members && f in members && f.address in FunderSet(b) && ViaMeans(members, via)
    ensures NamesFundingMember(ClusterGroup(members, None, via, false))
  {
    var k :| 0 <= k < |members| && members[k] == b;
    var g :| g in b.funders && g.address == f.address;
    var m :| 0 <= m < |b.funders| && b.funders[m] == g;
    var j :| 0 <= j < |members| && members[j] == f;
    assert IsMember(members, members[j].address);
    var l := SomeFirstInList(members, k, m);
    NamesAreNotEmpty(members, k, l);
    var i, n :| FirstInList(members, i, n) && members[i].funders[n].address == via &&
      forall k, m :: k < i && FirstInList(members, k, m) ==> members[k].funders[m].address == "";
    forall p, q | 0 <= p < i && 0 <= q < |members[p].funders| ensures !IsMember(members, members[p].funders[q].address) {
      if IsMember(members, members[p].funders[q].address) {
        var r := SomeFirstInList(members, p, q);
        NamesAreNotEmpty(members, p, r);
      }
    }
    assert FirstMemberFunder(members, i, n);
  }

  lemma NamesAreNotEmpty(members: seq<BuyerInput>, k: int, m: int)
    requires FirstInList(members, k, m) && forall b :: b in members ==> b.address != ""
    ensures members[k].funders[m].address != ""
  {
  }

  /**
   A self-funded member can be named although it funded nobody else: of two
   members, "a" lists itself and "b", "b" lists nobody. "b" funded "a", and "a"
   is named.
   */
  lemma SelfFundedIsNamed(a: BuyerInput, b: BuyerInput)
    requires a.address == "a" && a.funders == [Funder("a", ""), Funder("b", "")]
    requires b.address == "b" && b.funders == []
    ensures var c := ClusterGroup([a, b], None, "a", false);
      NamesFundingMember(c) && !FundedAnother(c) && b.address in FunderSet(a)
  {
    var ms := [a, b];
    assert ms[0].address == "a" && IsMember(ms, "a");
    assert a.funders[0] in a.funders && a.funders[1] in a.funders;
    assert FirstMemberFunder(ms, 0, 0) && ms[0].funders[0].address == "a";
    assert FunderSet(b) == {};
    assert a in ms;
  }

  // ---- Two results for the same funder data agree ----

  lemma ListLessIsAsymmetric()
    ensures Asymmetric(ListLess)
  {
    LessIsStrictTotal();
  }

  /**
   N, M, coverage and the listed groups depend on the funder graph and on who
   was checked, and on nothing else: not on the order of the buyers or of
   their funder lists, and not on the order maps were walked in.
   */
  lemma ClusteringIsDetermined(b1: seq<BuyerInput>, b2: seq<BuyerInput>, r1: ClusterResult, r2: ClusterResult)
    requires DistinctAddresses(b1) && DistinctAddresses(b2)
    requires GraphOf(b1) == GraphOf(b2) && Checked(b1) == Checked(b2)
    requires IsClustering(b1, r1) && IsClustering(b2, r2)
    ensures r1.n == r2.n && r1.m == r2.m && r1.covered == r2.covered
    ensures AddressLists(r1.clusters) == AddressLists(r2.clusters)
    ensures forall i :: 0 <= i < |r1.clusters| ==> r1.clusters[i].noFunderData == r2.clusters[i].noFunderData
  {
    var l1, l2 := AddressLists(r1.clusters), AddressLists(r2.clusters);
    ListsCovered(b1, b2, r1, r2);
    ListsCovered(b2, b1, r2, r1);
    ListLessIsAsymmetric();
    StrictOrderIsUnique(ListLess, l1, l2);
    NodeCount(b1);
    NodeCount(b2);
    forall i | 0 <= i < |r1.clusters| ensures r1.clusters[i].noFunderData == r2.clusters[i].noFunderData {
      var c1, c2 := r1.clusters[i], r2.clusters[i];
      assert l1[i] == l2[i] && IsGroup(b1, c1) && IsGroup(b2, c2);
      assert |c1.members| == 1 ==> c1.members[0].address == l1[i][0] && c2.members[0].address == l2[i][0];
    }
  }

  lemma NodeCount(buyers: seq<BuyerInput>)
    requires DistinctAddresses(buyers)
    ensures |GraphOf(buyers)| == |buyers|
    ensures GraphOf(buyers).Keys == Elems(AddressesOf(buyers))
  {
    var addresses := AddressesOf(buyers);
    assert forall i :: 0 <= i < |buyers| ==> buyers[i].address == addresses[i] && buyers[i] in buyers;
    assert GraphOf(buyers).Keys == Elems(addresses);
    DistinctSize(addresses);
  }

  lemma ListsCovered(b1: seq<BuyerInput>, b2: seq<BuyerInput>, r1: ClusterResult, r2: ClusterResult)
    requires DistinctAddresses(b1) && DistinctAddresses(b2) && GraphOf(b1) == GraphOf(b2)
    requires IsClustering(b1, r1) && IsClustering(b2, r2)
    ensures forall l :: l in AddressLists(r1.clusters) ==> l in AddressLists(r2.clusters)
  {
    forall l | l in AddressLists(r1.clusters) ensures l in AddressLists(r2.clusters) {
      var i :| 0 <= i < |r1.clusters| && l == AddressesOf(r1.clusters[i].members);
      var c1 := r1.clusters[i];
      assert IsGroup(b1, c1);
      var c2 :| c2 in r2.clusters && AddressSet(c2) == AddressSet(c1);
      var j :| 0 <= j < |r2.clusters| && c2 == r2.clusters[j];
      SameSetSameList(AddressesOf(c1.members), AddressesOf(c2.members));
      assert AddressLists(r2.clusters)[j] == l;
    }
  }

  lemma SameSetSameList(l1: seq<string>, l2: seq<string>)
    requires StrictlySortedBy(Less, l1) && StrictlySortedBy(Less, l2)
    requires Elems(l1) == Elems(l2)
    ensures l1 == l2
  {
    LessIsStrictTotal();
    forall a ensures a in l1 <==> a in l2 {
      assert a in l1 <==> a in Elems(l1);
      assert a in l2 <==> a in Elems(l2);
    }
    StrictOrderIsUnique(Less, l1, l2);
  }

  /** The buyers without any order: neither theirs nor that of their funder lists. */
  ghost function Unordered(buyers: seq<BuyerInput>): set<(string, bool, multiset<Funder>)>
  {
    set b | b in buyers :: (b.address, b.funderChecked, multiset(b.funders))
  }

  lemma GraphAt(buyers: seq<BuyerInput>, b: BuyerInput)
    requires DistinctAddresses(buyers) && b in buyers
    ensures b.address in GraphOf(buyers) && GraphOf(buyers)[b.address] == FunderSet(b)
    ensures b.address in Checked(buyers) <==> b.funderChecked
  {
  }

  lemma UnorderedGraph(b1: seq<BuyerInput>, b2: seq<BuyerInput>, a: string)
    requires DistinctAddresses(b1) && DistinctAddresses(b2) && Unordered(b1) <= Unordered(b2)
    requires a in GraphOf(b1)
    ensures a in GraphOf(b2) && GraphOf(b1)[a] == GraphOf(b2)[a]
    ensures a in Checked(b1) <==> a in Checked(b2)
  {
    var b :| b in b1 && b.address == a;
    assert (b.address, b.funderChecked, multiset(b.funders)) in Unordered(b2);
    var c :| c in b2 && c.address == a && c.funderChecked == b.funderChecked && multiset(b.funders) == multiset(c.funders);
    GraphAt(b1, b);
    GraphAt(b2, c);
    assert forall f :: f in b.funders <==> f in multiset(b.funders);
    assert forall f :: f in c.funders <==> f in multiset(c.funders);
  }

  /** Reordering the buyers, or each buyer's funders, changes neither the graph nor the coverage. */
  lemma ReorderingKeepsTheGraph(b1: seq<BuyerInput>, b2: seq<BuyerInput>)
    requires DistinctAddresses(b1) && DistinctAddresses(b2) && Unordered(b1) == Unordered(b2)
    ensures GraphOf(b1) == GraphOf(b2) && Checked(b1) == Checked(b2)
  {
    var g1, g2 := GraphOf(b1), GraphOf(b2);
    forall a | a in g1 ensures a in g2 && g1[a] == g2[a] && (a in Checked(b1) <==> a in Checked(b2)) {
      UnorderedGraph(b1, b2, a);
    }
    forall a | a in g2 ensures a in g1 {
      UnorderedGraph(b2, b1, a);
    }
    assert Checked(b1) <= g1.Keys && Checked(b2) <= g2.Keys;
  }

  /** N, M, coverage and the listed groups are the same for every order of the buyers and of their funder lists. */
  lemma ReorderingChangesNothing(b1: seq<BuyerInput>, b2: seq<BuyerInput>, r1: ClusterResult, r2: ClusterResult)
    requires DistinctAddresses(b1) && DistinctAddresses(b2) && Unordered(b1) == Unordered(b2)
    requires IsClustering(b1, r1) && IsClustering(b2, r2)
    ensures r1.n == r2.n && r1.m == r2.m && r1.covered == r2.covered && AddressLists(r1.clusters) == AddressLists(r2.clusters)
  {
    ReorderingKeepsTheGraph(b1, b2);
    ClusteringIsDetermined(b1, b2, r1, r2);
  }

  // ---- What a result says about the graph ----

  /** The two buyers list a funder in common, or one lists the other as a funder. */
  ghost predicate DirectlyTied(a: BuyerInput, b: BuyerInput)
  {
    || (exists l, m :: 0 <= l < |a.funders| && 0 <= m < |b.funders| && a.funders[l].address == b.funders[m].address)
    || (exists l :: 0 <= l < |a.funders| && a.funders[l].address == b.address)
    || (exists m :: 0 <= m < |b.funders| && b.funders[m].address == a.address)
  }

  /** What the edges of the graph are, listing by listing. */
  lemma EdgeIffTied(buyers: seq<BuyerInput>, i: int, j: int)
    requires DistinctAddresses(buyers) && 0 <= i < |buyers| && 0 <= j < |buyers|
    ensures Edge(GraphOf(buyers), buyers[i].address, buyers[j].address) <==> DirectlyTied(buyers[i], buyers[j])
  {
    var a, b, g := buyers[i], buyers[j], GraphOf(buyers);
    GraphAt(buyers, a);
    GraphAt(buyers, b);
    forall fa ensures fa in g[a.address] * g[b.address] <==> fa in FunderSet(a) && fa in FunderSet(b) {
    }
    forall x: BuyerInput, fa ensures fa in FunderSet(x) <==> exists l :: 0 <= l < |x.funders| && x.funders[l].address == fa {
      if fa in FunderSet(x) {
        var f :| f in x.funders && f.address == fa;
        var l :| 0 <= l < |x.funders| && x.funders[l] == f;
      }
    }
    if g[a.address] * g[b.address] != {} {
      var fa :| fa in g[a.address] * g[b.address];
      var l :| 0 <= l < |a.funders| && a.funders[l].address == fa;
      var m :| 0 <= m < |b.funders| && b.funders[m].address == fa;
    }
    if l, m :| 0 <= l < |a.funders| && 0 <= m < |b.funders| && a.funders[l].address == b.funders[m].address {
      assert a.funders[l].address in g[a.address] * g[b.address];
    }
  }

  lemma CheckOneMore(buyers: seq<BuyerInput>, i: nat)
    requires DistinctAddresses(buyers) && i < |buyers|
    ensures forall k :: 0 <= k < i ==> buyers[..i][k].address != buyers[i].address
    ensures |Checked(buyers[..i + 1])| == |Checked(buyers[..i])| + (if buyers[i].funderChecked then 1 else 0)
  {
    var more := if buyers[i].funderChecked then {buyers[i].address} else {};
    assert buyers[..i + 1] == buyers[..i] + [buyers[i]];
    assert buyers[i].address !in Checked(buyers[..i]);
    assert Checked(buyers[..i + 1]) == Checked(buyers[..i]) + more;
  }

  ghost function CheckedAt(buyers: seq<BuyerInput>, n: nat): set<int>
    requires n <= |buyers|
  {
    set i | 0 <= i < n && buyers[i].funderChecked
  }

  /** Coverage counts the checked buyers. */
  lemma {:induction false} CoveredCounts(buyers: seq<BuyerInput>, n: nat)
    requires DistinctAddresses(buyers) && n <= |buyers|
    ensures |Checked(buyers[..n])| == |CheckedAt(buyers, n)|
    decreases n
  {
    if n > 0 {
      CoveredCounts(buyers, n - 1);
      CheckOneMore(buyers, n - 1);
      OneMoreIf(CheckedAt(buyers, n - 1), CheckedAt(buyers, n), n - 1, buyers[n - 1].funderChecked);
    } else {
      assert CheckedAt(buyers, n) == {} && Checked(buyers[..n]) == {};
    }
  }

  /** The mark for lacking funder data is on exactly the groups of one buyer that was not checked. */
  lemma MarkedIff(buyers: seq<BuyerInput>, r: ClusterResult)
    requires DistinctAddresses(buyers) && IsClustering(buyers, r)
    ensures forall c :: c in r.clusters ==> (c.noFunderData <==> |c.members| == 1 && !c.members[0].funderChecked)
  {
    forall c | c in r.clusters ensures c.noFunderData <==> |c.members| == 1 && !c.members[0].funderChecked {
      assert IsGroup(buyers, c);
      if |c.members| == 1 {
        GraphAt(buyers, c.members[0]);
      }
    }
  }

  lemma LargerFirst(c: seq<BuyerInput>, d: seq<BuyerInput>, a: seq<string>, b: seq<string>)
    requires a == AddressesOf(c) && b == AddressesOf(d) && ListLess(a, b) && |d| > 0
    ensures |c| > |d| || (|c| == |d| && Less(c[0].address, d[0].address))
  {
  }

  lemma HasMember(buyers: seq<BuyerInput>, c: ClusterGroup)
    requires DistinctAddresses(buyers) && IsGroup(buyers, c)
    ensures |c.members| > 0
  {
    var a :| a in GraphOf(buyers) && AddressSet(c) == Component(GraphOf(buyers), a);
    LinkedToSelf(GraphOf(buyers), a);
    assert a in AddressSet(c) && a in AddressesOf(c.members);
  }

  /** The groups come largest first, equal sizes by the first member's address, members by address. */
  lemma LargestFirst(buyers: seq<BuyerInput>, r: ClusterResult)
    requires DistinctAddresses(buyers) && IsClustering(buyers, r)
    ensures forall c :: c in r.clusters ==> |c.members| > 0
    ensures forall i, j :: 0 <= i < j < |r.clusters| ==>
      var c, d := r.clusters[i].members, r.clusters[j].members;
      |c| > |d| || (|c| == |d| && Less(c[0].address, d[0].address))
    ensures forall c, i, j :: c in r.clusters && 0 <= i < j < |c.members| ==> Less(c.members[i].address, c.members[j].address)
  {
    forall c | c in r.clusters ensures |c.members| > 0 {
      HasMember(buyers, c);
    }
    forall i, j | 0 <= i < j < |r.clusters|
      ensures var c, d := r.clusters[i].members, r.clusters[j].members;
        |c| > |d| || (|c| == |d| && Less(c[0].address, d[0].address))
    {
      LargerFirst(r.clusters[i].members, r.clusters[j].members, AddressLists(r.clusters)[i], AddressLists(r.clusters)[j]);
    }
    forall c, i, j | c in r.clusters && 0 <= i < j < |c.members| ensures Less(c.members[i].address, c.members[j].address) {
      assert Less(AddressesOf(c.members)[i], AddressesOf(c.members)[j]);
    }
  }

  /** M counts the connected components. */
  lemma ClusterCount(buyers: seq<BuyerInput>, r: ClusterResult)
    requires DistinctAddresses(buyers) && IsClustering(buyers, r)
    ensures r.m == |Components(GraphOf(buyers))|
  {
    var sets := seq(|r.clusters|, i requires 0 <= i < |r.clusters| => AddressSet(r.clusters[i]));
    forall i, j | 0 <= i < j < |sets| ensures sets[i] != sets[j] {
      var c, d := r.clusters[i], r.clusters[j];
      assert IsGroup(buyers, c) && IsGroup(buyers, d);
      assert ListLess(AddressLists(r.clusters)[i], AddressLists(r.clusters)[j]);
      if sets[i] == sets[j] {
        SameSetSameList(AddressesOf(c.members), AddressesOf(d.members));
        ListLessIsAsymmetric();
      }
    }
    DistinctSize(sets);
    forall comp ensures comp in sets <==> comp in Components(GraphOf(buyers)) {
      if comp in Components(GraphOf(buyers)) {
        var c :| c in r.clusters && AddressSet(c) == comp;
        var i :| 0 <= i < |r.clusters| && c == r.clusters[i];
        assert sets[i] == comp;
      }
      if comp in sets {
        var i :| 0 <= i < |sets| && sets[i] == comp;
        assert IsGroup(buyers, r.clusters[i]);
      }
    }
    assert Elems(sets) == Components(GraphOf(buyers));
  }

  /** Two buyers are listed in one group exactly when a chain of edges links them. */
  lemma SameGroupIffLinked(buyers: seq<BuyerInput>, r: ClusterResult, a: string, b: string)
    requires DistinctAddresses(buyers) && IsClustering(buyers, r)
    requires a in GraphOf(buyers) && b in GraphOf(buyers)
    ensures (exists c :: c in r.clusters && a in AddressSet(c) && b in AddressSet(c)) <==> Linked(GraphOf(buyers), a, b)
    ensures exists c :: c in r.clusters && a in AddressSet(c)
    ensures forall c, d :: c in r.clusters && d in r.clusters && a in AddressSet(c) && a in AddressSet(d) ==> c == d
  {
    var g := GraphOf(buyers);
    LinkedIffSameComponent(g, a, b);
    LinkedToSelf(g, a);
    assert Component(g, a) in Components(g);
    var c0 :| c0 in r.clusters && AddressSet(c0) == Component(g, a);
    forall c | c in r.clusters && a in AddressSet(c) ensures AddressSet(c) == Component(g, a) && c == c0 {
      assert IsGroup(buyers, c);
      ComponentsPartition(g);
      OneGroupPerComponent(buyers, r, c, c0);
    }
  }

  lemma OneGroupPerComponent(buyers: seq<BuyerInput>, r: ClusterResult, c: ClusterGroup, d: ClusterGroup)
    requires DistinctAddresses(buyers) && IsClustering(buyers, r)
    requires c in r.clusters && d in r.clusters && AddressSet(c) == AddressSet(d)
    ensures c == d
  {
    assert IsGroup(buyers, c) && IsGroup(buyers, d);
    SameSetSameList(AddressesOf(c.members), AddressesOf(d.members));
    ListLessIsAsymmetric();
    var i :| 0 <= i < |r.clusters| && c == r.clusters[i];
    var j :| 0 <= j < |r.clusters| && d == r.clusters[j];
    assert AddressLists(r.clusters)[i] == AddressLists(r.clusters)[j];
  }
}
