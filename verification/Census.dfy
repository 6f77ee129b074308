/** The whole-universe funder census behind the report's headline. */
module Census {
  import opened Order
  import opened Clusters
  import opened Falsifier

  datatype FunderCount = FunderCount(address: string, label_: string, walletCount: nat)

  datatype FunderCensus = FunderCensus(distinctFunders: nat, sharedFunders: nat, topFunders: seq<FunderCount>)

  // ---- What the census has to be ----

  /** The positions of the wallets that name `fa` as a funder. */
  ghost function Claimants(wallets: seq<BuyerInput>, fa: string): set<int>
  {
    set i | 0 <= i < |wallets| && fa in FunderSet(wallets[i])
  }

  /** How many wallets name `fa`. */
  ghost function NamedBy(wallets: seq<BuyerInput>, fa: string): nat
  {
    if |wallets| == 0 then 0
    else NamedBy(wallets[..|wallets| - 1], fa) + (if fa in FunderSet(wallets[|wallets| - 1]) then 1 else 0)
  }

  lemma {:induction false} NamedByCountsClaimants(wallets: seq<BuyerInput>, fa: string)
    ensures NamedBy(wallets, fa) == |Claimants(wallets, fa)|
    decreases |wallets|
  {
    if |wallets| == 0 {
      assert Claimants(wallets, fa) == {};
    } else {
      var rest, last := wallets[..|wallets| - 1], |wallets| - 1;
      NamedByCountsClaimants(rest, fa);
      assert Claimants(wallets, fa) == Claimants(rest, fa) + (if fa in FunderSet(wallets[last]) then {last} else {});
    }
  }

  ghost function AllFunders(wallets: seq<BuyerInput>): set<string>
  {
    set w, f | w in wallets && f in FunderSet(w) :: f
  }

  /** Those of `funders` that more than one wallet names. */
  ghost function SharedOf(wallets: seq<BuyerInput>, funders: set<string>): set<string>
  {
    set f | f in funders && NamedBy(wallets, f) > 1
  }

  ghost function SharedFunders(wallets: seq<BuyerInput>): set<string>
  {
    SharedOf(wallets, AllFunders(wallets))
  }

  predicate TopLess(a: FunderCount, b: FunderCount)
  {
    a.walletCount > b.walletCount || (a.walletCount == b.walletCount && Less(a.address, b.address))
  }

  function CountAddress(fc: FunderCount): string
  {
    fc.address
  }

  /** The label of the first listing of `fa`; a wallet's later listings are passed over. */
  function FirstLabel(funders: seq<Funder>, fa: string): string
  {
    if |funders| == 0 then "" else if funders[0].address == fa then funders[0].label_ else FirstLabel(funders[1..], fa)
  }

  /** The first non-empty label that the wallets, in order, attach to `fa`. */
  function LabelIn(wallets: seq<BuyerInput>, fa: string): string
  {
    if |wallets| == 0 then ""
    else
      var before := LabelIn(wallets[..|wallets| - 1], fa);
      if before != "" then before else FirstLabel(wallets[|wallets| - 1].funders, fa)
  }

  ghost predicate Counted(wallets: seq<BuyerInput>, fc: FunderCount)
  {
    fc.walletCount == NamedBy(wallets, fc.address) && fc.label_ == LabelIn(wallets, fc.address)
  }

  /** Every funder once with the number of wallets that name it and the first label it was given, most named first. */
  ghost predicate IsCensus(wallets: seq<BuyerInput>, c: FunderCensus)
  {
    && c.distinctFunders == |AllFunders(wallets)|
    && c.sharedFunders == |SharedFunders(wallets)|
    && Elems(Map(c.topFunders, CountAddress)) == AllFunders(wallets)
    && (forall fc :: fc in c.topFunders ==> Counted(wallets, fc))
    && StrictlySortedBy(TopLess, c.topFunders)
  }

  // ---- What a row of the census says ----

  /** The `l`-th listing of the wallet is its first of `fa`. */
  ghost predicate FirstListing(w: BuyerInput, fa: string, l: int)
  {
    && 0 <= l < |w.funders| && w.funders[l].address == fa
    && forall m :: 0 <= m < l ==> w.funders[m].address != fa
  }

  /** No wallet among the first `n` labels `fa` where it first lists it. */
  ghost predicate Unlabelled(wallets: seq<BuyerInput>, n: int, fa: string)
  {
    forall k, m :: 0 <= k < n && k < |wallets| && FirstListing(wallets[k], fa, m) ==> wallets[k].funders[m].label_ == ""
  }

  /** The label is that of the first wallet to give one where it first lists `fa`. */
  ghost predicate FirstToLabel(wallets: seq<BuyerInput>, fa: string, text: string)
  {
    if text == "" then Unlabelled(wallets, |wallets|, fa)
    else exists i, l ::
      && 0 <= i < |wallets| && FirstListing(wallets[i], fa, l) && wallets[i].funders[l].label_ == text
      && Unlabelled(wallets, i, fa)
  }

  lemma {:induction false} FirstLabelMeans(w: BuyerInput, fa: string, from: nat)
    requires from <= |w.funders| && forall m :: 0 <= m < from ==> w.funders[m].address != fa
    ensures FirstLabel(w.funders[from..], fa) != "" ==>
      exists l :: FirstListing(w, fa, l) && w.funders[l].label_ == FirstLabel(w.funders[from..], fa)
    ensures FirstLabel(w.funders[from..], fa) == "" ==> forall l :: FirstListing(w, fa, l) ==> w.funders[l].label_ == ""
    decreases |w.funders| - from
  {
    if from < |w.funders| {
      assert w.funders[from..][1..] == w.funders[from + 1..];
      if w.funders[from].address == fa {
        assert FirstListing(w, fa, from);
        assert forall l :: FirstListing(w, fa, l) ==> l == from;
      } else {
        FirstLabelMeans(w, fa, from + 1);
      }
    }
  }

  lemma {:induction false} LabelMeans(wallets: seq<BuyerInput>, fa: string)
    ensures FirstToLabel(wallets, fa, LabelIn(wallets, fa))
    decreases |wallets|
  {
    if |wallets| > 0 {
      var last := |wallets| - 1;
      var rest := wallets[..last];
      LabelMeans(rest, fa);
      var before := LabelIn(rest, fa);
      if before != "" {
        var i, l :| 0 <= i < |rest| && FirstListing(rest[i], fa, l) && rest[i].funders[l].label_ == before && Unlabelled(rest, i, fa);
        assert FirstListing(wallets[i], fa, l) && Unlabelled(wallets, i, fa);
      } else {
        FirstLabelMeans(wallets[last], fa, 0);
        assert wallets[last].funders[0..] == wallets[last].funders;
        assert Unlabelled(wallets, last, fa);
      }
    }
  }

  /**
   Row by row: how many wallets list the funder, its label, and the order: most
   wallets first, then the smaller address.
   */
  lemma CensusRows(wallets: seq<BuyerInput>, c: FunderCensus)
    requires IsCensus(wallets, c)
    ensures forall fc :: fc in c.topFunders ==>
      fc.walletCount == |Claimants(wallets, fc.address)| && FirstToLabel(wallets, fc.address, fc.label_)
    ensures forall i, j :: 0 <= i < j < |c.topFunders| ==>
      var a, b := c.topFunders[i], c.topFunders[j];
      a.walletCount > b.walletCount || (a.walletCount == b.walletCount && Less(a.address, b.address))
  {
    forall fc | fc in c.topFunders
      ensures fc.walletCount == |Claimants(wallets, fc.address)| && FirstToLabel(wallets, fc.address, fc.label_)
    {
      assert Counted(wallets, fc);
      NamedByCountsClaimants(wallets, fc.address);
      LabelMeans(wallets, fc.address);
    }
    forall i, j | 0 <= i < j < |c.topFunders| ensures TopLess(c.topFunders[i], c.topFunders[j]) {
    }
  }

  // ---- The tally ----

  ghost predicate Tallied(wallets: seq<BuyerInput>, counts: map<string, FunderCount>)
  {
    && counts.Keys == AllFunders(wallets)
    && forall fa :: fa in counts ==> counts[fa].address == fa && Counted(wallets, counts[fa])
  }

  /** The label of `fa` once the funders in `seen` of one more wallet are counted. */
  function LabelSoFar(wallets: seq<BuyerInput>, w: BuyerInput, seen: set<string>, fa: string): string
  {
    if LabelIn(wallets, fa) == "" && fa in seen then FirstLabel(w.funders, fa) else LabelIn(wallets, fa)
  }

  /** The tally after `wallets` and the funders in `seen` of one more wallet. */
  ghost predicate Within(wallets: seq<BuyerInput>, w: BuyerInput, seen: set<string>, counts: map<string, FunderCount>)
  {
    && counts.Keys == AllFunders(wallets) + seen
    && forall fa :: fa in counts ==>
      && counts[fa].address == fa && counts[fa].label_ == LabelSoFar(wallets, w, seen, fa)
      && counts[fa].walletCount == NamedBy(wallets, fa) + (if fa in seen then 1 else 0)
  }

  function Bump(counts: map<string, FunderCount>, f: Funder): map<string, FunderCount>
  {
    var fc := if f.address in counts then counts[f.address] else FunderCount(f.address, f.label_, 0);
    var labelled := if fc.label_ == "" && f.label_ != "" then fc.(label_ := f.label_) else fc;
    counts[f.address := labelled.(walletCount := fc.walletCount + 1)]
  }

  lemma BumpWithin(wallets: seq<BuyerInput>, w: BuyerInput, seen: set<string>, counts: map<string, FunderCount>, f: Funder)
    requires Within(wallets, w, seen, counts) && f.address !in seen && FirstLabel(w.funders, f.address) == f.label_
    ensures Within(wallets, w, seen + {f.address}, Bump(counts, f))
  {
    if f.address !in counts {
      NobodyClaims(wallets, f.address);
    }
  }

  /** A funder not met before in the list is met here first. */
  lemma {:induction false} MetHereFirst(funders: seq<Funder>, j: nat)
    requires j < |funders| && funders[j].address !in AddressesIn(funders[..j])
    ensures FirstLabel(funders, funders[j].address) == funders[j].label_
    decreases j
  {
    if j > 0 {
      assert funders[..j][0] == funders[0] && funders[0] in funders[..j];
      assert funders[1..][..j - 1] == funders[..j][1..];
      assert forall f :: f in funders[1..][..j - 1] ==> f in funders[..j];
      MetHereFirst(funders[1..], j - 1);
    }
  }

  lemma {:induction false} NotMet(funders: seq<Funder>, fa: string)
    requires fa !in AddressesIn(funders)
    ensures FirstLabel(funders, fa) == ""
    decreases |funders|
  {
    if |funders| > 0 {
      assert funders[0] in funders && forall f :: f in funders[1..] ==> f in funders;
      NotMet(funders[1..], fa);
    }
  }

  lemma WithinIsTallied(wallets: seq<BuyerInput>, w: BuyerInput, counts: map<string, FunderCount>)
    requires Within(wallets, w, AddressesIn(w.funders), counts)
    ensures Tallied(wallets + [w], counts)
  {
    assert (wallets + [w])[..|wallets|] == wallets;
    assert AllFunders(wallets + [w]) == AllFunders(wallets) + FunderSet(w);
    assert FunderSet(w) == AddressesIn(w.funders);
    forall fa | fa in counts ensures Counted(wallets + [w], counts[fa]) {
      if fa !in AddressesIn(w.funders) {
        NotMet(w.funders, fa);
      }
    }
  }

  lemma {:induction false} NobodyClaims(wallets: seq<BuyerInput>, fa: string)
    requires fa !in AllFunders(wallets)
    ensures NamedBy(wallets, fa) == 0 && LabelIn(wallets, fa) == ""
    decreases |wallets|
  {
    if |wallets| > 0 {
      var rest := wallets[..|wallets| - 1];
      assert wallets == rest + [wallets[|wallets| - 1]];
      assert AllFunders(rest) <= AllFunders(wallets) && FunderSet(wallets[|wallets| - 1]) <= AllFunders(wallets);
      NobodyClaims(rest, fa);
      NotMet(wallets[|wallets| - 1].funders, fa);
    }
  }

  function AddressesIn(funders: seq<Funder>): set<string>
  {
    set f | f in funders :: f.address
  }

  lemma SeenOneMore(funders: seq<Funder>, j: nat)
    requires j < |funders|
    ensures AddressesIn(funders[..j + 1]) == AddressesIn(funders[..j]) + {funders[j].address}
  {
    assert funders[..j + 1] == funders[..j] + [funders[j]];
  }

  /** Each wallet counts once towards each of its funders. */
  method TallyWallet(ghost wallets: seq<BuyerInput>, w: BuyerInput, counts: map<string, FunderCount>)
    returns (counts': map<string, FunderCount>)
    requires Tallied(wallets, counts)
    ensures Tallied(wallets + [w], counts')
  {
    counts' := counts;
    var seen: set<string> := {};
    for j := 0 to |w.funders|
      invariant seen == AddressesIn(w.funders[..j])
      invariant Within(wallets, w, seen, counts')
    {
      var f := w.funders[j];
      SeenOneMore(w.funders, j);
      if f.address !in seen {
        MetHereFirst(w.funders, j);
        BumpWithin(wallets, w, seen, counts', f);
        counts' := Bump(counts', f);
        seen := seen + {f.address};
      }
    }
    assert w.funders[..|w.funders|] == w.funders;
    WithinIsTallied(wallets, w, counts');
  }

  method TallyAll(wallets: seq<BuyerInput>) returns (counts: map<string, FunderCount>)
    ensures Tallied(wallets, counts)
  {
    counts := map[];
    for i := 0 to |wallets|
      invariant Tallied(wallets[..i], counts)
    {
      assert wallets[..i + 1] == wallets[..i] + [wallets[i]];
      counts := TallyWallet(wallets[..i], wallets[i], counts);
    }
    assert wallets[..|wallets|] == wallets;
  }

  function WalletCountOf(fc: FunderCount): real
  {
    fc.walletCount as real
  }

  ghost predicate Keyed(counts: map<string, FunderCount>)
  {
    forall fa :: fa in counts ==> counts[fa].address == fa
  }

  ghost function SharedAmong(top: seq<FunderCount>): nat
  {
    if |top| == 0 then 0 else SharedAmong(top[..|top| - 1]) + (if top[|top| - 1].walletCount > 1 then 1 else 0)
  }

  /** The rows collected so far are those of the funders in `done`. */
  ghost predicate Collected(counts: map<string, FunderCount>, done: set<string>, top: seq<FunderCount>, shared: nat)
  {
    && Distinct(Map(top, CountAddress)) && Elems(Map(top, CountAddress)) == done
    && (forall fc :: fc in top ==> fc.address in counts && counts[fc.address] == fc)
    && shared == SharedAmong(top)
  }

  lemma CollectOneMore(counts: map<string, FunderCount>, done: set<string>, top: seq<FunderCount>, shared: nat, fa: string)
    requires Keyed(counts) && Collected(counts, done, top, shared) && fa in counts && fa !in done
    ensures Collected(counts, done + {fa}, top + [counts[fa]], if counts[fa].walletCount > 1 then shared + 1 else shared)
  {
    assert (top + [counts[fa]])[..|top|] == top;
    AppendNew(Map(top, CountAddress), fa);
    assert Map(top + [counts[fa]], CountAddress) == Map(top, CountAddress) + [fa];
  }

  /** The counts collected from the map, walked in any order. */
  method CollectTop(counts: map<string, FunderCount>) returns (top: seq<FunderCount>, shared: nat)
    requires Keyed(counts)
    ensures Collected(counts, counts.Keys, top, shared)
  {
    top, shared := [], 0;
    var todo := counts.Keys;
    ghost var done := {};
    while todo != {}
      invariant todo !! done && todo + done == counts.Keys
      invariant Collected(counts, done, top, shared)
    {
      var fa :| fa in todo;
      CollectOneMore(counts, done, top, shared, fa);
      if counts[fa].walletCount > 1 {
        shared := shared + 1;
      }
      top := top + [counts[fa]];
      done, todo := done + {fa}, todo - {fa};
    }
  }

  method ComputeFunderCensus(wallets: seq<BuyerInput>) returns (c: FunderCensus)
    ensures IsCensus(wallets, c)
  {
    var counts := TallyAll(wallets);
    var top, shared := CollectTop(counts);
    RankedIsStrictWeak(WalletCountOf, NoRank<FunderCount>(), CountAddress);
    var sorted := SortSlice(top, Ranked(WalletCountOf, NoRank<FunderCount>(), CountAddress));
    c := FunderCensus(|counts|, shared, sorted);
    SortedIsCensus(wallets, counts, top, shared, sorted);
  }

  lemma SortedIsCensus(wallets: seq<BuyerInput>, counts: map<string, FunderCount>, top: seq<FunderCount>, shared: nat, sorted: seq<FunderCount>)
    requires Tallied(wallets, counts) && Collected(counts, counts.Keys, top, shared)
    requires multiset(sorted) == multiset(top)
    requires SortedBy(Ranked(WalletCountOf, NoRank<FunderCount>(), CountAddress), sorted)
    ensures IsCensus(wallets, FunderCensus(|counts|, shared, sorted))
  {
    assert |counts| == |counts.Keys|;
    SharedAmongIsShared(wallets, top);
    SortedTop(top, sorted);
    PermutationFacts(top, sorted);
  }

  lemma {:induction false} SharedAmongIsShared(wallets: seq<BuyerInput>, top: seq<FunderCount>)
    requires Distinct(Map(top, CountAddress)) && forall fc :: fc in top ==> Counted(wallets, fc)
    ensures SharedAmong(top) == |SharedOf(wallets, Elems(Map(top, CountAddress)))|
    decreases |top|
  {
    if |top| == 0 {
      assert SharedOf(wallets, Elems(Map(top, CountAddress))) == {};
    } else {
      var rest, fc := top[..|top| - 1], top[|top| - 1];
      var before, all := Map(rest, CountAddress), Map(top, CountAddress);
      assert all == before + [fc.address];
      SharedAmongIsShared(wallets, rest);
      assert Counted(wallets, fc);
      assert fc.address !in Elems(before) by {
        assert forall i :: 0 <= i < |rest| ==> all[i] == before[i];
      }
      OneMoreShared(wallets, Elems(before), fc.address);
      assert Elems(all) == Elems(before) + {fc.address};
    }
  }

  lemma OneMoreShared(wallets: seq<BuyerInput>, funders: set<string>, f: string)
    requires f !in funders
    ensures |SharedOf(wallets, funders + {f})| == |SharedOf(wallets, funders)| + (if NamedBy(wallets, f) > 1 then 1 else 0)
  {
    assert SharedOf(wallets, funders + {f}) == SharedOf(wallets, funders) + (if NamedBy(wallets, f) > 1 then {f} else {});
  }

  lemma SortedTop(top: seq<FunderCount>, sorted: seq<FunderCount>)
    requires Distinct(Map(top, CountAddress)) && multiset(sorted) == multiset(top)
    requires SortedBy(Ranked(WalletCountOf, NoRank<FunderCount>(), CountAddress), sorted)
    ensures Elems(Map(sorted, CountAddress)) == Elems(Map(top, CountAddress))
    ensures StrictlySortedBy(TopLess, sorted)
  {
    MapOfPermutation(top, sorted, CountAddress);
    PermutationFacts(Map(top, CountAddress), Map(sorted, CountAddress));
    forall i, j | 0 <= i < j < |sorted| ensures TopLess(sorted[i], sorted[j]) {
      assert Map(sorted, CountAddress)[i] != Map(sorted, CountAddress)[j];
      LessIsTotal(sorted[i].address, sorted[j].address);
      assert !Ranked(WalletCountOf, NoRank<FunderCount>(), CountAddress)(sorted[j], sorted[i]);
      assert WalletCountOf(sorted[i]) == sorted[i].walletCount as real && WalletCountOf(sorted[j]) == sorted[j].walletCount as real;
    }
  }

  // ---- What the census says ----

  /** A funder is shared exactly when two different wallets name it. */
  lemma SharedIffTwo(wallets: seq<BuyerInput>, f: string)
    ensures NamedBy(wallets, f) > 1 <==>
      exists i, j :: 0 <= i < j < |wallets| && f in FunderSet(wallets[i]) && f in FunderSet(wallets[j])
  {
    var claimants := Claimants(wallets, f);
    NamedByCountsClaimants(wallets, f);
    if i, j :| 0 <= i < j < |wallets| && f in FunderSet(wallets[i]) && f in FunderSet(wallets[j]) {
      SubsetSize({i, j}, claimants);
    }
    if |claimants| > 1 {
      var k, l := TwoElements(claimants);
      assert k < l || l < k;
    }
  }

  /** The headline is zero exactly when no two wallets have a funder in common. */
  lemma NoneSharedIff(wallets: seq<BuyerInput>, c: FunderCensus)
    requires IsCensus(wallets, c)
    ensures c.sharedFunders == 0 <==> NoSharedFunder(wallets)
  {
    forall f ensures f in SharedFunders(wallets) <==>
      exists i, j :: 0 <= i < j < |wallets| && f in FunderSet(wallets[i]) && f in FunderSet(wallets[j])
    {
      SharedIffTwo(wallets, f);
      if i, j :| 0 <= i < j < |wallets| && f in FunderSet(wallets[i]) && f in FunderSet(wallets[j]) {
        assert wallets[i] in wallets;
      }
    }
    if c.sharedFunders == 0 {
      forall i, j | 0 <= i < j < |wallets| ensures FunderSet(wallets[i]) !! FunderSet(wallets[j]) {
        assert forall f :: f in FunderSet(wallets[i]) && f in FunderSet(wallets[j]) ==> f in SharedFunders(wallets);
      }
    } else {
      var f := SomeElement(SharedFunders(wallets));
    }
  }

  ghost function CountSum(top: seq<FunderCount>): nat
  {
    if |top| == 0 then 0 else top[0].walletCount + CountSum(top[1..])
  }

  ghost function FundersNamed(wallets: seq<BuyerInput>): nat
  {
    if |wallets| == 0 then 0
    else FundersNamed(wallets[..|wallets| - 1]) + |FunderSet(wallets[|wallets| - 1])|
  }

  /** Each naming of a funder counts once from either side: the rows' wallet counts add up to the wallets' funder counts. */
  lemma CensusConserves(wallets: seq<BuyerInput>, c: FunderCensus)
    requires IsCensus(wallets, c)
    ensures CountSum(c.topFunders) == FundersNamed(wallets)
  {
    var addresses := Map(c.topFunders, CountAddress);
    LessIsStrictTotal();
    assert Distinct(addresses) by {
      forall i, j | 0 <= i < j < |addresses| ensures addresses[i] != addresses[j] {
        assert TopLess(c.topFunders[i], c.topFunders[j]);
        assert Counted(wallets, c.topFunders[i]) && Counted(wallets, c.topFunders[j]);
      }
    }
    RowsAreClaims(wallets, c.topFunders);
    ClaimsAreNamings(wallets, addresses);
  }

  ghost function Claims(wallets: seq<BuyerInput>, addresses: seq<string>): nat
  {
    if |addresses| == 0 then 0 else NamedBy(wallets, addresses[0]) + Claims(wallets, addresses[1..])
  }

  lemma {:induction false} RowsAreClaims(wallets: seq<BuyerInput>, top: seq<FunderCount>)
    requires forall fc :: fc in top ==> Counted(wallets, fc)
    ensures CountSum(top) == Claims(wallets, Map(top, CountAddress))
  {
    if |top| > 0 {
      RowsAreClaims(wallets, top[1..]);
      assert Map(top, CountAddress)[1..] == Map(top[1..], CountAddress);
      assert Counted(wallets, top[0]);
    }
  }

  lemma {:induction false} ClaimsAreNamings(wallets: seq<BuyerInput>, addresses: seq<string>)
    requires Distinct(addresses) && AllFunders(wallets) <= Elems(addresses)
    ensures Claims(wallets, addresses) == FundersNamed(wallets)
    decreases |wallets|
  {
    if |wallets| == 0 {
      NoClaims(wallets, addresses);
    } else {
      var rest, w := wallets[..|wallets| - 1], wallets[|wallets| - 1];
      assert wallets == rest + [w];
      assert AllFunders(rest) <= AllFunders(wallets) && FunderSet(w) <= AllFunders(wallets);
      ClaimsAreNamings(rest, addresses);
      OneWalletMore(rest, w, addresses);
      assert Elems(addresses) * FunderSet(w) == FunderSet(w);
    }
  }

  lemma {:induction false} NoClaims(wallets: seq<BuyerInput>, addresses: seq<string>)
    requires |wallets| == 0
    ensures Claims(wallets, addresses) == 0
    decreases |addresses|
  {
    if |addresses| > 0 {
      NoClaims(wallets, addresses[1..]);
    }
  }

  lemma {:induction false} OneWalletMore(wallets: seq<BuyerInput>, w: BuyerInput, addresses: seq<string>)
    requires Distinct(addresses)
    ensures Claims(wallets + [w], addresses) == Claims(wallets, addresses) + |Elems(addresses) * FunderSet(w)|
    decreases |addresses|
  {
    if |addresses| == 0 {
      assert Elems(addresses) * FunderSet(w) == {};
    } else {
      var f, rest := addresses[0], addresses[1..];
      OneWalletMore(wallets, w, rest);
      assert (wallets + [w])[..|wallets|] == wallets;
      assert addresses == [f] + rest && f !in Elems(rest);
      assert Elems(addresses) * FunderSet(w) == Elems(rest) * FunderSet(w) + (if f in FunderSet(w) then {f} else {});
    }
  }

  // ---- The order of the wallets does not matter ----

  function FundersOf(w: BuyerInput): set<string>
  {
    FunderSet(w)
  }

  function NamedIn(sets: seq<set<string>>, fa: string): nat
  {
    if |sets| == 0 then 0 else (if fa in sets[0] then 1 else 0) + NamedIn(sets[1..], fa)
  }

  lemma {:induction false} NamedInAppend(sets: seq<set<string>>, last: set<string>, fa: string)
    ensures NamedIn(sets + [last], fa) == NamedIn(sets, fa) + (if fa in last then 1 else 0)
    decreases |sets|
  {
    if |sets| > 0 {
      assert (sets + [last])[1..] == sets[1..] + [last];
      NamedInAppend(sets[1..], last, fa);
    }
  }

  lemma {:induction false} NamedByIsNamedIn(wallets: seq<BuyerInput>, fa: string)
    ensures NamedBy(wallets, fa) == NamedIn(Map(wallets, FundersOf), fa)
    decreases |wallets|
  {
    if |wallets| > 0 {
      var rest, w := wallets[..|wallets| - 1], wallets[|wallets| - 1];
      NamedByIsNamedIn(rest, fa);
      NamedInAppend(Map(rest, FundersOf), FundersOf(w), fa);
      assert Map(wallets, FundersOf) == Map(rest, FundersOf) + [FundersOf(w)];
    }
  }

  lemma {:induction false} NamedInWithout(sets: seq<set<string>>, k: nat, fa: string)
    requires k < |sets|
    ensures NamedIn(sets, fa) == (if fa in sets[k] then 1 else 0) + NamedIn(Without(sets, k), fa)
    decreases k
  {
    if k == 0 {
      assert Without(sets, 0) == sets[1..];
    } else {
      NamedInWithout(sets[1..], k - 1, fa);
      assert Without(sets, k)[1..] == Without(sets[1..], k - 1);
    }
  }

  lemma {:induction false} NamedInPermutation(a: seq<set<string>>, b: seq<set<string>>, fa: string)
    requires multiset(a) == multiset(b)
    ensures NamedIn(a, fa) == NamedIn(b, fa)
    decreases |a|
  {
    PermutationFacts(a, b);
    if |a| > 0 {
      var k := DropFromPermutation(a, b);
      NamedInPermutation(a[1..], Without(b, k), fa);
      NamedInWithout(b, k, fa);
    }
  }

  /** What a row says besides its label, which does depend on the order of the wallets. */
  function RowOf(fc: FunderCount): (string, nat)
  {
    (fc.address, fc.walletCount)
  }

  predicate RowLess(a: (string, nat), b: (string, nat))
  {
    a.1 > b.1 || (a.1 == b.1 && Less(a.0, b.0))
  }

  ghost predicate SameFunderSets(w1: seq<BuyerInput>, w2: seq<BuyerInput>)
  {
    multiset(Map(w1, FundersOf)) == multiset(Map(w2, FundersOf))
  }

  lemma FundersSubset(w1: seq<BuyerInput>, w2: seq<BuyerInput>)
    requires SameFunderSets(w1, w2)
    ensures AllFunders(w1) <= AllFunders(w2)
  {
    PermutationFacts(Map(w1, FundersOf), Map(w2, FundersOf));
    forall f | f in AllFunders(w1) ensures f in AllFunders(w2) {
      var w :| w in w1 && f in FunderSet(w);
      var i :| 0 <= i < |w1| && w1[i] == w;
      assert Map(w1, FundersOf)[i] in Map(w2, FundersOf);
      var j :| 0 <= j < |w2| && Map(w2, FundersOf)[j] == FunderSet(w);
      assert w2[j] in w2 && f in FunderSet(w2[j]);
    }
  }

  lemma SameNames(w1: seq<BuyerInput>, w2: seq<BuyerInput>)
    requires SameFunderSets(w1, w2)
    ensures AllFunders(w1) == AllFunders(w2)
    ensures forall fa :: NamedBy(w1, fa) == NamedBy(w2, fa)
  {
    FundersSubset(w1, w2);
    FundersSubset(w2, w1);
    forall fa ensures NamedBy(w1, fa) == NamedBy(w2, fa) {
      NamedByIsNamedIn(w1, fa);
      NamedByIsNamedIn(w2, fa);
      NamedInPermutation(Map(w1, FundersOf), Map(w2, FundersOf), fa);
    }
  }

  lemma RowsWithin(w1: seq<BuyerInput>, w2: seq<BuyerInput>, c1: FunderCensus, c2: FunderCensus)
    requires SameFunderSets(w1, w2) && IsCensus(w1, c1) && IsCensus(w2, c2)
    ensures forall r :: r in Map(c1.topFunders, RowOf) ==> r in Map(c2.topFunders, RowOf)
  {
    SameNames(w1, w2);
    var t1, t2 := c1.topFunders, c2.topFunders;
    forall r | r in Map(t1, RowOf) ensures r in Map(t2, RowOf) {
      var i :| 0 <= i < |t1| && RowOf(t1[i]) == r;
      assert Map(t1, CountAddress)[i] == t1[i].address && Counted(w1, t1[i]);
      assert t1[i].address in Elems(Map(t2, CountAddress));
      var j :| 0 <= j < |t2| && t2[j].address == t1[i].address;
      assert Counted(w2, t2[j]) && Map(t2, RowOf)[j] == r;
    }
  }

  /** Reordering the wallets, and each wallet's funders, changes no count and no place in the list. */
  lemma CensusIsDetermined(w1: seq<BuyerInput>, w2: seq<BuyerInput>, c1: FunderCensus, c2: FunderCensus)
    requires SameFunderSets(w1, w2) && IsCensus(w1, c1) && IsCensus(w2, c2)
    ensures c1.distinctFunders == c2.distinctFunders && c1.sharedFunders == c2.sharedFunders
    ensures Map(c1.topFunders, RowOf) == Map(c2.topFunders, RowOf)
  {
    SameNames(w1, w2);
    assert SharedFunders(w1) == SharedFunders(w2);
    RowsWithin(w1, w2, c1, c2);
    RowsWithin(w2, w1, c2, c1);
    LessIsStrictTotal();
    RowsStrict(c1);
    RowsStrict(c2);
    StrictOrderIsUnique(RowLess, Map(c1.topFunders, RowOf), Map(c2.topFunders, RowOf));
  }

  lemma RowsStrict(c: FunderCensus)
    requires StrictlySortedBy(TopLess, c.topFunders)
    ensures StrictlySortedBy(RowLess, Map(c.topFunders, RowOf))
  {
    forall i, j | 0 <= i < j < |c.topFunders| ensures RowLess(Map(c.topFunders, RowOf)[i], Map(c.topFunders, RowOf)[j]) {
      assert TopLess(c.topFunders[i], c.topFunders[j]);
    }
  }
}
