/**
 From the calls' outcomes to the token report: the merge of concurrent
 related-wallets replies, the buyer index, one verdict per token, the order.
 */
module Report {
  import opened Order
  import opened FunderGraph
  import opened Clusters
  import opened Verdict
  import opened Falsifier
  import opened Concentration
  import opened Universe
  import opened Calls
  import opened Move
  import Collapse

  datatype RelatedWallet = RelatedWallet(address: string, addressLabel: string, relation: string)

  datatype PnL = PnL(realizedPnLUSD: real, winRate: real)

  datatype Flow = Flow(smartTraderNetFlowUSD: real, exchangeNetFlowUSD: real, exchangeObserved: bool)

  /**
   A run: the universe, and the outcome fixed in advance for every call. None is
   a failed call; flows, information and bars are by token key.
   */
  datatype Inputs = Inputs(
    universe: Universe,
    pnl: string -> Option<PnL>,
    related: (string, string) -> Option<seq<RelatedWallet>>,
    flow: string -> Option<seq<Flow>>,
    info: string -> bool,
    bars: string -> Option<seq<Candle>>,
    minSignalUSD: real)

  const FIRST_FUNDER := "First Funder"

  // ---- What the outcomes say about a wallet ----

  /** The items of the related-wallets stage: one per wallet and chain it traded on. */
  function RelatedItems(u: Universe): set<string>
  {
    set a, c | a in u.wallets && c in u.wallets[a].chains :: WalletChainKey(a, c)
  }

  /** The chains that are asked about under the address `a`. */
  function AskedUnder(u: Universe, a: string): set<string>
  {
    set i | i in RelatedItems(u) && SplitWalletChainKey(i).0 == a :: SplitWalletChainKey(i).1
  }

  function ChainsFor(inp: Inputs, a: string): set<string>
  {
    AskedUnder(inp.universe, a)
  }

  /** Every worker finds the wallet its item names; otherwise the run crashes on a missing record. */
  ghost predicate ItemsNameWallets(u: Universe)
  {
    forall i :: i in RelatedItems(u) ==> SplitWalletChainKey(i).0 in u.wallets
  }

  ghost predicate NoBarInAddresses(u: Universe)
  {
    forall a :: a in u.wallets ==> '|' !in a
  }

  lemma ItemHasBar(u: Universe, item: string)
    requires item in RelatedItems(u)
    ensures '|' in item
  {
    var a, c :| a in u.wallets && c in u.wallets[a].chains && item == WalletChainKey(a, c);
    assert item[|a|] == '|';
  }

  lemma NoBarNamesWallets(u: Universe)
    requires NoBarInAddresses(u)
    ensures ItemsNameWallets(u)
  {
    forall i | i in RelatedItems(u) ensures SplitWalletChainKey(i).0 in u.wallets {
      var a, c :| a in u.wallets && c in u.wallets[a].chains && i == WalletChainKey(a, c);
      SplitUndoesJoinIff(a, c);
    }
  }

  lemma BarIsNeverAsked(u: Universe, a: string)
    requires '|' in a
    ensures AskedUnder(u, a) == {}
  {
    forall i | i in RelatedItems(u) ensures SplitWalletChainKey(i).0 != a {
      ItemHasBar(u, i);
      JoinUndoesSplit(i);
    }
  }

  /**
   Each wallet is asked about on exactly the chains it traded on if and only if
   no wallet has a bar in its address.
   */
  lemma AskedIsTradedIff(u: Universe)
    requires forall a :: a in u.wallets ==> u.wallets[a].chains != {}
    ensures (forall a :: a in u.wallets ==> AskedUnder(u, a) == u.wallets[a].chains) <==> NoBarInAddresses(u)
  {
    forall a | a in u.wallets ensures AskedUnder(u, a) == u.wallets[a].chains ==> '|' !in a {
      if '|' in a {
        BarIsNeverAsked(u, a);
      }
    }
    if NoBarInAddresses(u) {
      forall a | a in u.wallets ensures AskedUnder(u, a) == u.wallets[a].chains {
        AskedIsTraded(u, a);
      }
    }
  }

  lemma AskedIsTraded(u: Universe, a: string)
    requires NoBarInAddresses(u) && a in u.wallets
    ensures AskedUnder(u, a) == u.wallets[a].chains
  {
    forall c | c in u.wallets[a].chains ensures c in AskedUnder(u, a) {
      SplitUndoesJoinIff(a, c);
      assert WalletChainKey(a, c) in RelatedItems(u);
    }
    forall c | c in AskedUnder(u, a) ensures c in u.wallets[a].chains {
      var i :| i in RelatedItems(u) && SplitWalletChainKey(i) == (a, c);
      var b, d :| b in u.wallets && d in u.wallets[b].chains && i == WalletChainKey(b, d);
      SplitUndoesJoinIff(b, d);
    }
  }

  /** The wallet's first funders over all its chains that answered. */
  ghost function FundersOf(inp: Inputs, a: string): set<string>
  {
    set c, rw | c in ChainsFor(inp, a) && inp.related(a, c).Some? && rw in inp.related(a, c).value && rw.relation == FIRST_FUNDER :: rw.address
  }

  /** A wallet is checked exactly when its call succeeded on every chain it was asked about. */
  ghost predicate FullyChecked(inp: Inputs, a: string)
  {
    forall c :: c in ChainsFor(inp, a) ==> inp.related(a, c).Some?
  }

  datatype Enrichment = Enrichment(relatedWallets: seq<RelatedWallet>, relatedOK: bool)

  /** `e` is the merge of the replies of the chains in `chains`. */
  ghost predicate Merges(inp: Inputs, a: string, chains: set<string>, e: Enrichment)
  {
    && (e.relatedOK <==> forall c :: c in chains ==> inp.related(a, c).Some?)
    && forall rw :: rw in e.relatedWallets <==> InReplies(inp, a, chains, rw)
  }

  ghost predicate InReplies(inp: Inputs, a: string, chains: set<string>, rw: RelatedWallet)
  {
    exists c :: c in chains && inp.related(a, c).Some? && rw in inp.related(a, c).value
  }

  function Absorb(e: Enrichment, reply: Option<seq<RelatedWallet>>): Enrichment
  {
    if reply.None? then e.(relatedOK := false) else e.(relatedWallets := e.relatedWallets + reply.value)
  }

  lemma AbsorbMerges(inp: Inputs, a: string, chains: set<string>, c: string, e: Enrichment)
    requires Merges(inp, a, chains, e)
    ensures Merges(inp, a, chains + {c}, Absorb(e, inp.related(a, c)))
  {
    var e' := Absorb(e, inp.related(a, c));
    forall rw ensures rw in e'.relatedWallets <==> InReplies(inp, a, chains + {c}, rw) {
      if InReplies(inp, a, chains, rw) {
        var d :| d in chains && inp.related(a, d).Some? && rw in inp.related(a, d).value;
        assert d in chains + {c};
      }
      assert InReplies(inp, a, chains + {c}, rw) <==>
        InReplies(inp, a, chains, rw) || (inp.related(a, c).Some? && rw in inp.related(a, c).value);
    }
  }

  /** The wallet's chains whose call is no longer among those to finish. */
  function ChainsDone(inp: Inputs, todo: set<string>, a: string): set<string>
  {
    set c | c in ChainsFor(inp, a) && WalletChainKey(a, c) !in todo
  }

  ghost predicate AllMerged(inp: Inputs, todo: set<string>, results: map<string, Enrichment>)
  {
    && results.Keys == inp.universe.wallets.Keys
    && forall a :: a in results ==> Merges(inp, a, ChainsDone(inp, todo, a), results[a])
  }

  /** What the worker handling `item` leaves behind. */
  function Handle(inp: Inputs, results: map<string, Enrichment>, item: string): map<string, Enrichment>
    requires SplitWalletChainKey(item).0 in results
  {
    var (a, c) := SplitWalletChainKey(item);
    results[a := Absorb(results[a], inp.related(a, c))]
  }

  lemma AskedNamesItem(u: Universe, a: string, c: string)
    requires c in AskedUnder(u, a)
    ensures WalletChainKey(a, c) in RelatedItems(u) && '|' !in a
  {
    var i :| i in RelatedItems(u) && SplitWalletChainKey(i) == (a, c);
    ItemHasBar(u, i);
    JoinUndoesSplit(i);
  }

  lemma NothingMergedYet(inp: Inputs, results: map<string, Enrichment>)
    requires results == map a | a in inp.universe.wallets :: Enrichment([], true)
    ensures AllMerged(inp, RelatedItems(inp.universe), results)
  {
    forall a | a in results ensures Merges(inp, a, ChainsDone(inp, RelatedItems(inp.universe), a), results[a]) {
      forall c | c in ChainsFor(inp, a) ensures WalletChainKey(a, c) in RelatedItems(inp.universe) {
        AskedNamesItem(inp.universe, a, c);
      }
      assert ChainsDone(inp, RelatedItems(inp.universe), a) == {};
    }
  }

  lemma HandleKeepsMerged(inp: Inputs, todo: set<string>, results: map<string, Enrichment>, item: string)
    requires todo <= RelatedItems(inp.universe) && item in todo
    requires AllMerged(inp, todo, results) && SplitWalletChainKey(item).0 in results
    ensures AllMerged(inp, todo - {item}, Handle(inp, results, item))
  {
    var (a, c) := SplitWalletChainKey(item);
    AbsorbMerges(inp, a, ChainsDone(inp, todo, a), c, results[a]);
    forall b | b in results ensures ChainsDone(inp, todo - {item}, b) == ChainsDone(inp, todo, b) + (if b == a then {c} else {}) {
      OneLessToDo(inp, todo, item, a, c, b);
    }
    assert forall b :: b in results && b != a ==> ChainsDone(inp, todo - {item}, b) == ChainsDone(inp, todo, b);
  }

  lemma OneLessToDo(inp: Inputs, todo: set<string>, item: string, a: string, c: string, b: string)
    requires todo <= RelatedItems(inp.universe) && item in todo && SplitWalletChainKey(item) == (a, c)
    ensures ChainsDone(inp, todo - {item}, b) == ChainsDone(inp, todo, b) + (if b == a then {c} else {})
  {
    ItemHasBar(inp.universe, item);
    JoinUndoesSplit(item);
    forall d | d in ChainsFor(inp, b) ensures WalletChainKey(b, d) == item <==> b == a && d == c {
      AskedNamesItem(inp.universe, b, d);
      if WalletChainKey(b, d) == item {
        JoinIsInjective(b, d, a, c);
      }
    }
  }

  /** One worker: its reply goes to the wallet its item names, or it crashes for want of one. */
  method HandleOne(inp: Inputs, ghost todo: set<string>, results: map<string, Enrichment>, item: string)
    returns (crashed: bool, results': map<string, Enrichment>)
    requires todo <= RelatedItems(inp.universe) && item in todo && AllMerged(inp, todo, results)
    ensures crashed <==> SplitWalletChainKey(item).0 !in inp.universe.wallets
    ensures !crashed ==> AllMerged(inp, todo - {item}, results')
  {
    if SplitWalletChainKey(item).0 !in results {
      return true, results;
    }
    HandleKeepsMerged(inp, todo, results, item);
    return false, Handle(inp, results, item);
  }

  /**
   The related-wallets stage: each reply is merged under its wallet's lock, in
   whatever order the workers finish. A worker whose item names no wallet crashes
   the run.
   */
  method FetchRelated(inp: Inputs) returns (crashed: bool, results: map<string, Enrichment>)
    ensures crashed <==> !ItemsNameWallets(inp.universe)
    ensures !crashed ==> results.Keys == inp.universe.wallets.Keys
    ensures !crashed ==> forall a :: a in results ==> Merges(inp, a, ChainsFor(inp, a), results[a])
  {
    crashed := false;
    var todo := RelatedItems(inp.universe);
    results := map a | a in inp.universe.wallets :: Enrichment([], true);
    NothingMergedYet(inp, results);
    while todo != {}
      invariant todo <= RelatedItems(inp.universe)
      invariant !crashed && AllMerged(inp, todo, results) && NamedBut(inp.universe, todo)
    {
      var item :| item in todo;
      crashed, results := HandleOne(inp, todo, results, item);
      if crashed {
        UnnamedCrashes(inp.universe, item);
        return;
      }
      OneMoreNamed(inp.universe, todo, item);
      todo := todo - {item};
    }
    EverythingMerged(inp, todo, results);
    AllNamed(inp.universe, todo);
  }

  /** Every item but those in `todo` names a wallet. */
  ghost predicate NamedBut(u: Universe, todo: set<string>)
  {
    forall i :: i in RelatedItems(u) && i !in todo ==> SplitWalletChainKey(i).0 in u.wallets
  }

  lemma OneMoreNamed(u: Universe, todo: set<string>, item: string)
    requires NamedBut(u, todo) && SplitWalletChainKey(item).0 in u.wallets
    ensures NamedBut(u, todo - {item})
  {
  }

  lemma UnnamedCrashes(u: Universe, item: string)
    requires item in RelatedItems(u) && SplitWalletChainKey(item).0 !in u.wallets
    ensures !ItemsNameWallets(u)
  {
  }

  lemma AllNamed(u: Universe, todo: set<string>)
    requires todo == {} && NamedBut(u, todo)
    ensures ItemsNameWallets(u)
  {
  }

  lemma EverythingMerged(inp: Inputs, todo: set<string>, results: map<string, Enrichment>)
    requires todo == {} && AllMerged(inp, todo, results)
    ensures forall a :: a in results ==> Merges(inp, a, ChainsFor(inp, a), results[a])
  {
    forall a | a in results ensures Merges(inp, a, ChainsFor(inp, a), results[a]) {
      assert ChainsDone(inp, todo, a) == ChainsFor(inp, a);
    }
  }

  /** The `p`-th entry is a first funder, and no entry before it names the same one. */
  ghost predicate FirstEntry(related: seq<RelatedWallet>, p: int)
  {
    && 0 <= p < |related| && related[p].relation == "First Funder"
    && forall q :: 0 <= q < p && related[q].relation == "First Funder" ==> related[q].address != related[p].address
  }

  /** `funders` are the first funders among the first `n` entries, each as it is first named, in the order of the entries. */
  ghost predicate ListsFirst(related: seq<RelatedWallet>, n: nat, funders: seq<Funder>, at: seq<int>)
  {
    && |at| == |funders|
    && (forall i :: 0 <= i < |at| ==>
          FirstEntry(related, at[i]) && at[i] < n && funders[i] == Funder(related[at[i]].address, related[at[i]].addressLabel))
    && (forall i, j :: 0 <= i < j < |at| ==> at[i] < at[j])
    && (forall p :: FirstEntry(related, p) && p < n ==> p in at)
  }

  lemma NamedInFirst(related: seq<RelatedWallet>, n: nat, funders: seq<Funder>, at: seq<int>, address: string)
    requires n <= |related| && ListsFirst(related, n, funders, at)
    ensures (exists f :: f in funders && f.address == address) <==>
      exists q :: 0 <= q < n && related[q].relation == "First Funder" && related[q].address == address
  {
    if f :| f in funders && f.address == address {
      var i :| 0 <= i < |funders| && funders[i] == f;
      assert FirstEntry(related, at[i]);
    }
    if q :| 0 <= q < n && related[q].relation == "First Funder" && related[q].address == address {
      var p := FirstOf(related, q);
      var i :| 0 <= i < |at| && at[i] == p;
      assert funders[i] in funders;
    }
  }

  lemma FirstOf(related: seq<RelatedWallet>, q: nat) returns (p: int)
    requires q < |related| && related[q].relation == "First Funder"
    ensures FirstEntry(related, p) && p <= q && related[p].address == related[q].address
    decreases q
  {
    if r: nat :| r < q && related[r].relation == "First Funder" && related[r].address == related[q].address {
      p := FirstOf(related, r);
    } else {
      p := q;
    }
  }

  lemma ListsMore(related: seq<RelatedWallet>, n: nat, funders: seq<Funder>, at: seq<int>)
    requires n < |related| && ListsFirst(related, n, funders, at)
    ensures FirstEntry(related, n) ==>
      ListsFirst(related, n + 1, funders + [Funder(related[n].address, related[n].addressLabel)], at + [n])
    ensures !FirstEntry(related, n) ==> ListsFirst(related, n + 1, funders, at)
  {
    if FirstEntry(related, n) {
      assert (at + [n])[|at|] == n;
    }
  }

  /** First-Funder edges only, each address once: as first named, in the order of the entries. */
  method FirstFunders(related: seq<RelatedWallet>) returns (funders: seq<Funder>, ghost at: seq<int>)
    ensures ListsFirst(related, |related|, funders, at)
  {
    funders, at := [], [];
    var seen: set<string> := {};
    for n := 0 to |related|
      invariant ListsFirst(related, n, funders, at)
      invariant seen == set f | f in funders :: f.address
    {
      var rw := related[n];
      NamedInFirst(related, n, funders, at, rw.address);
      ListsMore(related, n, funders, at);
      if rw.relation == FIRST_FUNDER && rw.address !in seen {
        seen := seen + {rw.address};
        funders := funders + [Funder(rw.address, rw.addressLabel)];
        at := at + [n];
      }
    }
  }

  // ---- What a token's row has to be ----

  datatype TokenReport = TokenReport(
    key: string,
    verdict: Verdict,
    n: nat,
    m: nat,
    covered: nat,
    smartBoughtUSD: real,
    clusters: seq<ClusterGroup>)

  function Bought(inp: Inputs, a: string): Trades
  {
    PurchasesIn(inp.universe, a)
  }

  /** The wallets in `among` that bought `k`. */
  function BuyersAmong(inp: Inputs, among: set<string>, k: string): set<string>
  {
    set a | a in among && k in Keys(Bought(inp, a))
  }

  function BuyersOf(inp: Inputs, k: string): set<string>
  {
    BuyersAmong(inp, inp.universe.wallets.Keys, k)
  }

  /** The buyers of `k`, with their first funders. */
  ghost function TokenGraph(inp: Inputs, k: string): Graph
  {
    map a | a in BuyersOf(inp, k) :: FundersOf(inp, a)
  }

  ghost function TokenChecked(inp: Inputs, k: string): set<string>
  {
    set a | a in BuyersOf(inp, k) && FullyChecked(inp, a)
  }

  ghost function Sum(s: set<string>, f: string -> real): real
    decreases |s|
  {
    if s == {} then 0.0 else var x :| x in s; f(x) + Sum(s - {x}, f)
  }

  /** The sum does not depend on the order of summation. */
  lemma {:induction false} SumWithout(s: set<string>, f: string -> real, x: string)
    requires x in s
    ensures Sum(s, f) == f(x) + Sum(s - {x}, f)
    decreases |s|
  {
    var y :| y in s && Sum(s, f) == f(y) + Sum(s - {y}, f);
    if y != x {
      SumWithout(s - {y}, f, x);
      SumWithout(s - {x}, f, y);
      assert s - {y} - {x} == s - {x} - {y};
    }
  }

  ghost function TokenValue(inp: Inputs, k: string): string -> real
  {
    a => TokenTotal(Bought(inp, a), k)
  }

  ghost function TokenBought(inp: Inputs, k: string): real
  {
    Sum(inp.universe.wallets.Keys, TokenValue(inp, k))
  }

  function MarketFor(inp: Inputs, k: string, boughtUSD: real): Market
  {
    var reply := inp.flow(k);
    if reply.None? || |reply.value| == 0 then Market(0.0, 0.0, false, boughtUSD, inp.minSignalUSD)
    else
      var f := reply.value[0];
      Market(f.smartTraderNetFlowUSD, f.exchangeNetFlowUSD, f.exchangeObserved, boughtUSD, inp.minSignalUSD)
  }

  function ResultOf(r: TokenReport): ClusterResult
  {
    ClusterResult(r.n, r.m, r.covered, r.clusters)
  }

  /** Each listing is a first funder that some reply for the wallet names, with the label it gives. */
  ghost predicate NamedInReplies(inp: Inputs, a: string, funders: seq<Funder>)
  {
    forall f :: f in funders ==> InReplies(inp, a, ChainsFor(inp, a), RelatedWallet(f.address, f.label_, "First Funder"))
  }

  /** The buyer carries exactly what the seed and the outcomes say about its wallet. */
  ghost predicate Carries(inp: Inputs, b: BuyerInput)
  {
    && b.address in inp.universe.wallets && b.label_ == inp.universe.wallets[b.address].label_
    && (inp.pnl(b.address).Some? ==>
          b.pnlUSD == inp.pnl(b.address).value.realizedPnLUSD && b.winRate == inp.pnl(b.address).value.winRate)
    && (inp.pnl(b.address).None? ==> b.pnlUSD == 0.0 && b.winRate == 0.0)
    && FunderSet(b) == FundersOf(inp, b.address) && NamedInReplies(inp, b.address, b.funders)
    && (b.funderChecked <==> FullyChecked(inp, b.address))
    && Collapse.NoRepeatedFunder(b)
  }

  /** `r` clusters the buyers `buyers`, which carry what the outcomes say, and judges them. */
  ghost predicate RowFrom(inp: Inputs, r: TokenReport, buyers: seq<BuyerInput>)
  {
    && DistinctAddresses(buyers)
    && GraphOf(buyers) == TokenGraph(inp, r.key) && Checked(buyers) == TokenChecked(inp, r.key)
    && (forall b :: b in buyers ==> Carries(inp, b))
    && IsClustering(buyers, ResultOf(r))
    && r.smartBoughtUSD == TokenBought(inp, r.key)
    && r.verdict == VerdictOf(ResultOf(r), MarketFor(inp, r.key, r.smartBoughtUSD))
    && ("" !in inp.universe.wallets ==> Collapse.AllExplained(buyers, r.clusters))
  }

  ghost predicate IsRow(inp: Inputs, r: TokenReport)
  {
    r.key in inp.universe.tokens && exists buyers :: RowFrom(inp, r, buyers)
  }

  /** Most concerning verdict first, then most buyers, then key. */
  predicate ReportLess(a: TokenReport, b: TokenReport)
  {
    || Severity(a.verdict) < Severity(b.verdict)
    || (Severity(a.verdict) == Severity(b.verdict) && a.n > b.n)
    || (Severity(a.verdict) == Severity(b.verdict) && a.n == b.n && Less(a.key, b.key))
  }

  function KeyOfRow(r: TokenReport): string
  {
    r.key
  }

  ghost predicate IsReport(inp: Inputs, rows: seq<TokenReport>)
  {
    && Elems(Map(rows, KeyOfRow)) == inp.universe.tokens.Keys && |rows| == |inp.universe.tokens|
    && (forall r :: r in rows ==> IsRow(inp, r))
    && StrictlySortedBy(ReportLess, rows)
  }

  // ---- The buyers ----

  /** The wallet as the collapse sees it. */
  method WalletFor(inp: Inputs, a: string, e: Enrichment) returns (b: BuyerInput)
    requires a in inp.universe.wallets && Merges(inp, a, ChainsFor(inp, a), e)
    ensures b.address == a && Carries(inp, b)
  {
    var funders, at := FirstFunders(e.relatedWallets);
    var pnl := if inp.pnl(a).Some? then inp.pnl(a).value else PnL(0.0, 0.0);
    b := BuyerInput(a, inp.universe.wallets[a].label_, pnl.realizedPnLUSD, pnl.winRate, funders, e.relatedOK);
    FundersFromReplies(inp, a, e, b, at);
  }

  lemma FundersFromReplies(inp: Inputs, a: string, e: Enrichment, b: BuyerInput, at: seq<int>)
    requires Merges(inp, a, ChainsFor(inp, a), e) && ListsFirst(e.relatedWallets, |e.relatedWallets|, b.funders, at)
    ensures FunderSet(b) == FundersOf(inp, a) && NamedInReplies(inp, a, b.funders) && Collapse.NoRepeatedFunder(b)
  {
    forall x ensures x in FunderSet(b) <==> x in FundersOf(inp, a) {
      NamedInFirst(e.relatedWallets, |e.relatedWallets|, b.funders, at, x);
      MergedFunder(inp, a, e, x);
    }
    ListedInReplies(inp, a, e, b.funders, at);
    forall i, j | 0 <= i < j < |b.funders| ensures b.funders[i].address != b.funders[j].address {
      assert FirstEntry(e.relatedWallets, at[i]) && FirstEntry(e.relatedWallets, at[j]) && at[i] < at[j];
    }
  }

  lemma MergedFunder(inp: Inputs, a: string, e: Enrichment, x: string)
    requires Merges(inp, a, ChainsFor(inp, a), e)
    ensures x in FundersOf(inp, a) <==>
      exists q :: 0 <= q < |e.relatedWallets| && e.relatedWallets[q].relation == "First Funder" && e.relatedWallets[q].address == x
  {
    if x in FundersOf(inp, a) {
      var c, rw :| c in ChainsFor(inp, a) && inp.related(a, c).Some? && rw in inp.related(a, c).value &&
        rw.relation == FIRST_FUNDER && rw.address == x;
      assert InReplies(inp, a, ChainsFor(inp, a), rw);
      var q :| 0 <= q < |e.relatedWallets| && e.relatedWallets[q] == rw;
    }
    if q :| 0 <= q < |e.relatedWallets| && e.relatedWallets[q].relation == "First Funder" && e.relatedWallets[q].address == x {
      assert InReplies(inp, a, ChainsFor(inp, a), e.relatedWallets[q]);
    }
  }

  lemma ListedInReplies(inp: Inputs, a: string, e: Enrichment, funders: seq<Funder>, at: seq<int>)
    requires Merges(inp, a, ChainsFor(inp, a), e) && ListsFirst(e.relatedWallets, |e.relatedWallets|, funders, at)
    ensures NamedInReplies(inp, a, funders)
  {
    forall f | f in funders
      ensures InReplies(inp, a, ChainsFor(inp, a), RelatedWallet(f.address, f.label_, "First Funder"))
    {
      var i :| 0 <= i < |funders| && funders[i] == f;
      assert FirstEntry(e.relatedWallets, at[i]);
      assert e.relatedWallets[at[i]] == RelatedWallet(f.address, f.label_, "First Funder");
    }
  }

  method MakeWallets(inp: Inputs) returns (crashed: bool, wallets: map<string, BuyerInput>)
    ensures crashed <==> !ItemsNameWallets(inp.universe)
    ensures !crashed ==> wallets.Keys == inp.universe.wallets.Keys
    ensures !crashed ==> forall a :: a in wallets ==> wallets[a].address == a && Carries(inp, wallets[a])
  {
    var results;
    crashed, results := FetchRelated(inp);
    wallets := map[];
    if crashed {
      return;
    }
    var todo := results.Keys;
    while todo != {}
      invariant todo <= results.Keys && wallets.Keys == results.Keys - todo
      invariant forall a :: a in wallets ==> wallets[a].address == a && Carries(inp, wallets[a])
    {
      var a :| a in todo;
      var w := WalletFor(inp, a, results[a]);
      wallets := wallets[a := w];
      todo := todo - {a};
    }
  }

  // ---- The reverse index from tokens to buyers ----

  function ListedUnder(buyersOf: map<string, seq<string>>, k: string): seq<string>
  {
    if k in buyersOf then buyersOf[k] else []
  }

  function AmountUnder(boughtUSD: map<string, real>, k: string): real
  {
    if k in boughtUSD then boughtUSD[k] else 0.0
  }

  /** The tokens in `keys` list `a` once more than they did in `before`, and no other list changed. */
  ghost predicate ListedMore(before: map<string, seq<string>>, after: map<string, seq<string>>, keys: set<string>, a: string)
  {
    forall k :: ListedUnder(after, k) == ListedUnder(before, k) + (if k in keys then [a] else [])
  }

  /** Each token's amount grew by what `bought` spends on it. */
  ghost predicate AmountsMore(before: map<string, real>, after: map<string, real>, bought: Trades)
  {
    forall k :: AmountUnder(after, k) == AmountUnder(before, k) + TokenTotal(bought, k)
  }

  lemma OneTradeMore(before: map<string, real>, after: map<string, real>, bought: Trades, i: nat)
    requires i < |bought| && AmountsMore(before, after, bought[..i])
    ensures AmountsMore(before, after[bought[i].tokenKey := AmountUnder(after, bought[i].tokenKey) + bought[i].tradeValueUSD], bought[..i + 1])
    ensures Keys(bought[..i + 1]) == Keys(bought[..i]) + {bought[i].tokenKey}
  {
    assert bought[..i + 1] == bought[..i] + [bought[i]] && DropLast(bought[..i + 1]) == bought[..i];
  }

  lemma OneListingMore(before: map<string, seq<string>>, after: map<string, seq<string>>, keys: set<string>, a: string, k: string)
    requires ListedMore(before, after, keys, a) && k !in keys
    ensures ListedMore(before, after[k := ListedUnder(after, k) + [a]], keys + {k}, a)
  {
  }

  /** Adds one wallet's purchases: every trade to its token's value, the wallet once to each token. */
  method IndexWallet(a: string, bought: Trades, buyersOf: map<string, seq<string>>, boughtUSD: map<string, real>)
    returns (buyersOf': map<string, seq<string>>, boughtUSD': map<string, real>)
    ensures ListedMore(buyersOf, buyersOf', Keys(bought), a)
    ensures AmountsMore(boughtUSD, boughtUSD', bought)
  {
    buyersOf', boughtUSD' := buyersOf, boughtUSD;
    var seenTok: set<string> := {};
    NothingBought(buyersOf, boughtUSD, a, bought[..0]);
    for i := 0 to |bought|
      invariant seenTok == Keys(bought[..i])
      invariant ListedMore(buyersOf, buyersOf', seenTok, a)
      invariant AmountsMore(boughtUSD, boughtUSD', bought[..i])
    {
      var k := bought[i].tokenKey;
      OneTradeMore(boughtUSD, boughtUSD', bought, i);
      boughtUSD' := boughtUSD'[k := AmountUnder(boughtUSD', k) + bought[i].tradeValueUSD];
      if k !in seenTok {
        OneListingMore(buyersOf, buyersOf', seenTok, a, k);
        buyersOf' := buyersOf'[k := ListedUnder(buyersOf', k) + [a]];
      } else {
        assert seenTok + {k} == seenTok;
      }
      seenTok := seenTok + {k};
    }
    assert bought[..|bought|] == bought;
  }

  lemma NothingBought(buyersOf: map<string, seq<string>>, boughtUSD: map<string, real>, a: string, none: Trades)
    requires none == []
    ensures Keys(none) == {} && ListedMore(buyersOf, buyersOf, {}, a) && AmountsMore(boughtUSD, boughtUSD, none)
  {
  }

  /** Each token lists its buyers among `done`, once each. */
  ghost predicate BuyersListed(inp: Inputs, done: set<string>, buyersOf: map<string, seq<string>>)
  {
    forall k :: Distinct(ListedUnder(buyersOf, k)) && Elems(ListedUnder(buyersOf, k)) == BuyersAmong(inp, done, k)
  }

  /** Each token's amount is what the wallets in `done` spent on it. */
  ghost predicate AmountsSummed(inp: Inputs, done: set<string>, boughtUSD: map<string, real>)
  {
    forall k :: AmountUnder(boughtUSD, k) == Sum(done, TokenValue(inp, k))
  }

  lemma OneMoreBuyer(inp: Inputs, done: set<string>, a: string, before: map<string, seq<string>>, after: map<string, seq<string>>)
    requires a !in done && BuyersListed(inp, done, before) && ListedMore(before, after, Keys(Bought(inp, a)), a)
    ensures BuyersListed(inp, done + {a}, after)
  {
    forall k
      ensures Distinct(ListedUnder(after, k)) && Elems(ListedUnder(after, k)) == BuyersAmong(inp, done + {a}, k)
    {
      assert BuyersAmong(inp, done + {a}, k) == BuyersAmong(inp, done, k) + (if k in Keys(Bought(inp, a)) then {a} else {});
      if k in Keys(Bought(inp, a)) {
        AppendNew(ListedUnder(before, k), a);
      }
    }
  }

  lemma OneMoreAmount(inp: Inputs, done: set<string>, a: string, before: map<string, real>, after: map<string, real>)
    requires a !in done && AmountsSummed(inp, done, before) && AmountsMore(before, after, Bought(inp, a))
    ensures AmountsSummed(inp, done + {a}, after)
  {
    forall k ensures AmountUnder(after, k) == Sum(done + {a}, TokenValue(inp, k)) {
      SumWithout(done + {a}, TokenValue(inp, k), a);
      assert done + {a} - {a} == done;
    }
  }

  lemma NothingIndexed(inp: Inputs, none: set<string>)
    requires none == {}
    ensures BuyersListed(inp, none, map[]) && AmountsSummed(inp, none, map[])
  {
  }

  /** Indexes one wallet more. */
  method IndexOne(inp: Inputs, a: string, buyersOf: map<string, seq<string>>, boughtUSD: map<string, real>, ghost done: set<string>)
    returns (buyersOf': map<string, seq<string>>, boughtUSD': map<string, real>)
    requires a in inp.universe.wallets && a !in done
    requires BuyersListed(inp, done, buyersOf) && AmountsSummed(inp, done, boughtUSD)
    ensures BuyersListed(inp, done + {a}, buyersOf') && AmountsSummed(inp, done + {a}, boughtUSD')
  {
    buyersOf', boughtUSD' := IndexWallet(a, inp.universe.wallets[a].boughtTokens, buyersOf, boughtUSD);
    OneMoreBuyer(inp, done, a, buyersOf, buyersOf');
    OneMoreAmount(inp, done, a, boughtUSD, boughtUSD');
  }

  /** The wallets are walked in any order. */
  method IndexBuyers(inp: Inputs) returns (buyersOf: map<string, seq<string>>, boughtUSD: map<string, real>)
    ensures BuyersListed(inp, inp.universe.wallets.Keys, buyersOf)
    ensures AmountsSummed(inp, inp.universe.wallets.Keys, boughtUSD)
  {
    buyersOf, boughtUSD := map[], map[];
    var todo := inp.universe.wallets.Keys;
    ghost var done := {};
    NothingIndexed(inp, done);
    while todo != {}
      invariant todo + done == inp.universe.wallets.Keys && todo !! done
      invariant BuyersListed(inp, done, buyersOf) && AmountsSummed(inp, done, boughtUSD)
      decreases |todo|
    {
      var a :| a in todo;
      buyersOf, boughtUSD := IndexOne(inp, a, buyersOf, boughtUSD, done);
      done := done + {a};
      todo := todo - {a};
    }
  }

  // ---- The rows ----

  lemma BuyerAt(inp: Inputs, buyers: seq<BuyerInput>, a: string)
    requires DistinctAddresses(buyers) && a in GraphOf(buyers) && forall b :: b in buyers ==> Carries(inp, b)
    ensures GraphOf(buyers)[a] == FundersOf(inp, a) && (a in Checked(buyers) <==> FullyChecked(inp, a))
  {
    var b :| b in buyers && b.address == a;
    GraphAt(buyers, b);
  }

  lemma DistinctFromList(buyers: seq<BuyerInput>)
    requires Distinct(AddressesOf(buyers))
    ensures DistinctAddresses(buyers)
  {
    forall i, j | 0 <= i < j < |buyers| ensures buyers[i].address != buyers[j].address {
      assert AddressesOf(buyers)[i] != AddressesOf(buyers)[j];
    }
  }

  lemma {:induction false} BuyersAreNodes(inp: Inputs, k: string, buyers: seq<BuyerInput>)
    requires DistinctAddresses(buyers) && Elems(AddressesOf(buyers)) == BuyersOf(inp, k)
    ensures GraphOf(buyers).Keys == BuyersOf(inp, k) && Checked(buyers) <= GraphOf(buyers).Keys
  {
    NodeCount(buyers);
  }

  lemma {:induction false} GraphFromOutcomes(inp: Inputs, k: string, buyers: seq<BuyerInput>)
    requires DistinctAddresses(buyers) && Elems(AddressesOf(buyers)) == BuyersOf(inp, k)
    requires forall b :: b in buyers ==> Carries(inp, b)
    ensures GraphOf(buyers) == TokenGraph(inp, k) && Checked(buyers) == TokenChecked(inp, k)
  {
    BuyersAreNodes(inp, k, buyers);
    var g, checked := GraphOf(buyers), Checked(buyers);
    forall a | a in BuyersOf(inp, k) ensures g[a] == FundersOf(inp, a) && (a in checked <==> FullyChecked(inp, a)) {
      BuyerAt(inp, buyers, a);
    }
    SameGraphAndChecked(inp, k, g, checked);
  }

  lemma SameGraphAndChecked(inp: Inputs, k: string, g: Graph, checked: set<string>)
    requires g.Keys == BuyersOf(inp, k) && checked <= g.Keys
    requires forall a :: a in BuyersOf(inp, k) ==> g[a] == FundersOf(inp, a) && (a in checked <==> FullyChecked(inp, a))
    ensures g == TokenGraph(inp, k) && checked == TokenChecked(inp, k)
  {
  }

  lemma BuyersCarry(inp: Inputs, k: string, buyers: seq<BuyerInput>)
    requires Distinct(AddressesOf(buyers)) && Elems(AddressesOf(buyers)) == BuyersOf(inp, k)
    requires forall b :: b in buyers ==> Carries(inp, b)
    ensures DistinctAddresses(buyers)
    ensures GraphOf(buyers) == TokenGraph(inp, k) && Checked(buyers) == TokenChecked(inp, k)
    ensures Collapse.NoRepeatedFunders(buyers)
    ensures "" !in inp.universe.wallets ==> Collapse.NoEmptyAddress(buyers)
  {
    DistinctFromList(buyers);
    GraphFromOutcomes(inp, k, buyers);
    forall i | 0 <= i < |buyers| ensures Collapse.NoRepeatedFunder(buyers[i]) && buyers[i].address in inp.universe.wallets {
      assert buyers[i] in buyers && AddressesOf(buyers)[i] in Elems(AddressesOf(buyers));
    }
  }

  /** The token's buyers in address order, each with what its outcomes say. */
  method ListBuyers(inp: Inputs, wallets: map<string, BuyerInput>, buyerAddrs: seq<string>) returns (buyers: seq<BuyerInput>)
    requires forall a :: a in buyerAddrs ==> a in wallets && wallets[a].address == a && Carries(inp, wallets[a])
    requires Distinct(buyerAddrs)
    ensures Distinct(AddressesOf(buyers)) && Elems(AddressesOf(buyers)) == Elems(buyerAddrs)
    ensures StrictlySortedBy(Less, AddressesOf(buyers))
    ensures forall b :: b in buyers ==> Carries(inp, b)
  {
    LessIsStrictTotal();
    StrictTotalIsStrictWeak(Less);
    var sorted := SortSlice(buyerAddrs, Less);
    PermutationFacts(buyerAddrs, sorted);
    buyers := [];
    for i := 0 to |sorted|
      invariant AddressesOf(buyers) == sorted[..i]
      invariant forall b :: b in buyers ==> Carries(inp, b)
    {
      assert sorted[i] in sorted;
      buyers := buyers + [wallets[sorted[i]]];
    }
    assert sorted[..|sorted|] == sorted;
  }

  method BuildRow(inp: Inputs, k: string, wallets: map<string, BuyerInput>, buyerAddrs: seq<string>, boughtUSD: real)
    returns (r: TokenReport)
    requires k in inp.universe.tokens && wallets.Keys == inp.universe.wallets.Keys
    requires forall a :: a in wallets ==> wallets[a].address == a && Carries(inp, wallets[a])
    requires Distinct(buyerAddrs) && Elems(buyerAddrs) == BuyersOf(inp, k) && boughtUSD == TokenBought(inp, k)
    ensures r.key == k && IsRow(inp, r)
  {
    assert forall a :: a in buyerAddrs ==> a in Elems(buyerAddrs);
    var buyers := ListBuyers(inp, wallets, buyerAddrs);
    BuyersCarry(inp, k, buyers);
    var cr, _ := Collapse.Cluster(buyers);
    var verdict := VerdictOf(cr, MarketFor(inp, k, boughtUSD));
    r := TokenReport(k, verdict, cr.n, cr.m, cr.covered, boughtUSD, cr.clusters);
    JudgedIsRow(inp, k, buyers, cr, r);
  }

  lemma JudgedIsRow(inp: Inputs, k: string, buyers: seq<BuyerInput>, cr: ClusterResult, r: TokenReport)
    requires k in inp.universe.tokens && DistinctAddresses(buyers)
    requires GraphOf(buyers) == TokenGraph(inp, k) && Checked(buyers) == TokenChecked(inp, k)
    requires forall b :: b in buyers ==> Carries(inp, b)
    requires IsClustering(buyers, cr) && ("" !in inp.universe.wallets ==> Collapse.AllExplained(buyers, cr.clusters))
    requires r == TokenReport(k, VerdictOf(cr, MarketFor(inp, k, TokenBought(inp, k))), cr.n, cr.m, cr.covered, TokenBought(inp, k), cr.clusters)
    ensures IsRow(inp, r)
  {
    assert ResultOf(r) == cr;
    assert RowFrom(inp, r, buyers);
  }

  function Concern(r: TokenReport): real
  {
    -(Severity(r.verdict) as real)
  }

  function BuyerCount(r: TokenReport): real
  {
    r.n as real
  }

  /** One row per token, the tokens walked in any order, then the sort. */
  method BuildReports(inp: Inputs) returns (crashed: bool, rows: seq<TokenReport>)
    ensures crashed <==> !ItemsNameWallets(inp.universe)
    ensures !crashed ==> IsReport(inp, rows)
  {
    var wallets;
    crashed, wallets := MakeWallets(inp);
    if crashed {
      return true, [];
    }
    var buyersOf, boughtUSD := IndexBuyers(inp);
    var unsorted: seq<TokenReport> := [];
    var todo := inp.universe.tokens.Keys;
    while todo != {}
      invariant todo <= inp.universe.tokens.Keys
      invariant Distinct(Map(unsorted, KeyOfRow)) && Elems(Map(unsorted, KeyOfRow)) == inp.universe.tokens.Keys - todo
      invariant forall r :: r in unsorted ==> IsRow(inp, r)
    {
      var k :| k in todo;
      var r := BuildRow(inp, k, wallets, ListedUnder(buyersOf, k), AmountUnder(boughtUSD, k));
      AppendNew(Map(unsorted, KeyOfRow), k);
      assert Map(unsorted + [r], KeyOfRow) == Map(unsorted, KeyOfRow) + [k];
      unsorted := unsorted + [r];
      todo := todo - {k};
    }
    RankedIsStrictWeak(Concern, BuyerCount, KeyOfRow);
    rows := SortSlice(unsorted, Ranked(Concern, BuyerCount, KeyOfRow));
    SortedRowsAreReport(inp, unsorted, rows);
  }

  lemma SortedRowsAreReport(inp: Inputs, unsorted: seq<TokenReport>, rows: seq<TokenReport>)
    requires Distinct(Map(unsorted, KeyOfRow)) && Elems(Map(unsorted, KeyOfRow)) == inp.universe.tokens.Keys
    requires forall r :: r in unsorted ==> IsRow(inp, r)
    requires multiset(rows) == multiset(unsorted) && SortedBy(Ranked(Concern, BuyerCount, KeyOfRow), rows)
    ensures IsReport(inp, rows)
  {
    PermutationFacts(unsorted, rows);
    MapOfPermutation(unsorted, rows, KeyOfRow);
    PermutationFacts(Map(unsorted, KeyOfRow), Map(rows, KeyOfRow));
    assert Elems(Map(rows, KeyOfRow)) == Elems(Map(unsorted, KeyOfRow));
    DistinctSize(Map(rows, KeyOfRow));
    forall i, j | 0 <= i < j < |rows| ensures ReportLess(rows[i], rows[j]) {
      assert Map(rows, KeyOfRow)[i] != Map(rows, KeyOfRow)[j];
      SortsAsReportLess(rows[i], rows[j]);
    }
  }

  /** The sort's comparison is `ReportLess` once keys differ. */
  lemma SortsAsReportLess(a: TokenReport, b: TokenReport)
    requires a.key != b.key
    ensures !Ranked(Concern, BuyerCount, KeyOfRow)(b, a) ==> ReportLess(a, b)
  {
    LessIsTotal(a.key, b.key);
    var x, y := Severity(a.verdict), Severity(b.verdict);
    assert Concern(a) > Concern(b) <==> x < y;
    assert Concern(a) == Concern(b) <==> x == y;
    assert BuyerCount(a) > BuyerCount(b) <==> a.n > b.n;
    assert BuyerCount(a) == BuyerCount(b) <==> a.n == b.n;
    assert KeyOfRow(a) == a.key && KeyOfRow(b) == b.key;
  }
}
