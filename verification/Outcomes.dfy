/** What the report says in terms of the calls' outcomes alone, and that nothing else can change it. */
module Outcomes {
  import opened Order
  import opened FunderGraph
  import opened Clusters
  import opened Verdict
  import opened Falsifier
  import opened Universe
  import opened Concentration
  import opened Report

  // ---- What a row means, straight from the outcomes ----

  /** Every related-wallets call for every buyer succeeded. */
  ghost predicate AllAnswered(inp: Inputs, k: string)
  {
    forall a, c :: a in BuyersOf(inp, k) && c in ChainsFor(inp, a) ==> inp.related(a, c).Some?
  }

  /** No two buyers have a first funder in common, and none was funded by another. */
  ghost predicate NoneTied(inp: Inputs, k: string)
  {
    forall a, b :: a in BuyersOf(inp, k) && b in BuyersOf(inp, k) && a != b ==>
      FundersOf(inp, a) !! FundersOf(inp, b) && b !in FundersOf(inp, a)
  }

  /** The buyers with the first funders that their calls named. */
  ghost function Funding(inp: Inputs, k: string): Graph
  {
    map a | a in BuyersOf(inp, k) :: FundersOf(inp, a)
  }

  /** Every two buyers are linked by a chain of shared first funders and funding. */
  ghost predicate AllTied(inp: Inputs, k: string)
  {
    forall a, b :: a in BuyersOf(inp, k) && b in BuyersOf(inp, k) ==> Linked(Funding(inp, k), a, b)
  }

  /** The flow call succeeded with a row, and the exchange side of the first one was observed. */
  ghost predicate ExchangeSeen(inp: Inputs, k: string)
  {
    inp.flow(k).Some? && |inp.flow(k).value| > 0 && inp.flow(k).value[0].exchangeObserved
  }

  /** And that row has smart traders buying while exchanges take the token in. */
  ghost predicate ExitSeen(inp: Inputs, k: string)
  {
    ExchangeSeen(inp, k) && inp.flow(k).value[0].smartTraderNetFlowUSD > 0.0 && inp.flow(k).value[0].exchangeNetFlowUSD > 0.0
  }

  /** When each verdict is given, in terms of the calls' outcomes. */
  ghost predicate VerdictSays(inp: Inputs, k: string, v: Verdict)
  {
    var many := |BuyersOf(inp, k)| >= 3;
    var enough := TokenBought(inp, k) >= inp.minSignalUSD;
    var apart, exit := NoneTied(inp, k), ExitSeen(inp, k);
    && (v == Both <==> many && !apart && exit)
    && (v == Thin <==> many && AllTied(inp, k) && !exit)
    && (v == Concentrated <==> many && !AllTied(inp, k) && !apart && !exit)
    && (v == Distributing <==> many && apart && AllAnswered(inp, k) && exit && enough)
    && (v == Confirmed <==> many && apart && AllAnswered(inp, k) && ExchangeSeen(inp, k) && !exit && enough)
    && (v == Independent <==> many && apart && AllAnswered(inp, k) && !ExchangeSeen(inp, k) && enough)
    && (v == Unverified <==> many && apart && !AllAnswered(inp, k) && enough)
    && (v == ExitOnly <==> exit && (!many || (apart && !enough)))
    && (v == Weak <==> !exit && (!many || (apart && !enough)))
  }

  lemma MarketFromOutcomes(inp: Inputs, k: string, boughtUSD: real)
    ensures var mk := MarketFor(inp, k, boughtUSD);
      && (mk.exitCheckable <==> ExchangeSeen(inp, k)) && (mk.ExitFires() <==> ExitSeen(inp, k))
      && (mk.AboveFloor() <==> boughtUSD >= inp.minSignalUSD)
  {
  }

  lemma {:induction false} BuyersAreListed(inp: Inputs, k: string, buyers: seq<BuyerInput>)
    requires DistinctAddresses(buyers) && GraphOf(buyers) == TokenGraph(inp, k)
    ensures |buyers| == |BuyersOf(inp, k)| && Funding(inp, k) == GraphOf(buyers)
    ensures forall a :: a in BuyersOf(inp, k) <==> exists b :: b in buyers && b.address == a
  {
    NodeCount(buyers);
    assert TokenGraph(inp, k).Keys == BuyersOf(inp, k) && Funding(inp, k) == TokenGraph(inp, k);
    forall a ensures a in BuyersOf(inp, k) <==> exists b :: b in buyers && b.address == a {
      assert a in BuyersOf(inp, k) <==> a in GraphOf(buyers);
    }
  }

  lemma {:induction false} LinkedFromOutcomes(inp: Inputs, k: string, buyers: seq<BuyerInput>)
    requires DistinctAddresses(buyers) && Funding(inp, k) == GraphOf(buyers)
    requires forall a :: a in BuyersOf(inp, k) <==> exists b :: b in buyers && b.address == a
    ensures AllLinked(buyers) <==> AllTied(inp, k)
  {
    if AllLinked(buyers) {
      forall a, b | a in BuyersOf(inp, k) && b in BuyersOf(inp, k) ensures Linked(Funding(inp, k), a, b) {
        var x :| x in buyers && x.address == a;
        var y :| y in buyers && y.address == b;
      }
    }
    if AllTied(inp, k) {
      forall b, c | b in buyers && c in buyers ensures Linked(GraphOf(buyers), b.address, c.address) {
        assert b.address in BuyersOf(inp, k) && c.address in BuyersOf(inp, k);
      }
    }
  }

  lemma {:induction false} TiedFromOutcomes(inp: Inputs, k: string, buyers: seq<BuyerInput>)
    requires DistinctAddresses(buyers) && GraphOf(buyers) == TokenGraph(inp, k)
    ensures NoSharedFunder(buyers) && NoneFundedByAnother(buyers) <==> NoneTied(inp, k)
  {
    NoEdgesIffNothingShared(buyers);
    EdgesFromOutcomes(inp, k);
  }

  /** What the decision table asks about the buyers, answered from the outcomes. */
  lemma {:induction false} AnswersFromOutcomes(inp: Inputs, k: string, buyers: seq<BuyerInput>)
    requires DistinctAddresses(buyers) && GraphOf(buyers) == TokenGraph(inp, k) && Checked(buyers) == TokenChecked(inp, k)
    ensures |buyers| == |BuyersOf(inp, k)| && (AllLinked(buyers) <==> AllTied(inp, k)) && (AllChecked(buyers) <==> AllAnswered(inp, k))
    ensures NoSharedFunder(buyers) && NoneFundedByAnother(buyers) <==> NoneTied(inp, k)
  {
    BuyersAreListed(inp, k, buyers);
    LinkedFromOutcomes(inp, k, buyers);
    TiedFromOutcomes(inp, k, buyers);
    CheckedFromOutcomes(inp, k, buyers);
  }

  /**
   Every verdict, end to end: from the raw outcome of each call to the row, each
   is given exactly when the buyers, their funders, the token's flow and what was
   spent say so.
   */
  lemma VerdictFromOutcomes(inp: Inputs, r: TokenReport)
    requires IsRow(inp, r)
    ensures VerdictSays(inp, r.key, r.verdict)
  {
    var buyers :| RowFrom(inp, r, buyers);
    var mk := MarketFor(inp, r.key, r.smartBoughtUSD);
    EveryVerdictIff(buyers, ResultOf(r), mk);
    AnswersFromOutcomes(inp, r.key, buyers);
    MarketFromOutcomes(inp, r.key, r.smartBoughtUSD);
    SaysInOutcomes(inp, r.key, r.verdict, mk, NoSharedFunder(buyers) && NoneFundedByAnother(buyers), AllLinked(buyers), AllChecked(buyers));
  }

  lemma SaysInOutcomes(inp: Inputs, k: string, v: Verdict, mk: Market, apart: bool, linked: bool, checked: bool)
    requires TableSays(v, |BuyersOf(inp, k)| >= 3, apart, linked, checked, mk)
    requires (apart <==> NoneTied(inp, k)) && (linked <==> AllTied(inp, k)) && (checked <==> AllAnswered(inp, k))
    requires (mk.exitCheckable <==> ExchangeSeen(inp, k)) && (mk.ExitFires() <==> ExitSeen(inp, k))
    requires mk.AboveFloor() <==> TokenBought(inp, k) >= inp.minSignalUSD
    ensures VerdictSays(inp, k, v)
  {
  }

  /** The buyers whose related-wallets calls all succeeded. */
  ghost function AnsweredOf(inp: Inputs, k: string): set<string>
  {
    set a | a in BuyersOf(inp, k) && forall c :: c in ChainsFor(inp, a) ==> inp.related(a, c).Some?
  }

  /** N, coverage and the groups of a row: its buyers, those whose calls all succeeded, and who is linked to whom. */
  lemma RowFromOutcomes(inp: Inputs, r: TokenReport)
    requires IsRow(inp, r)
    ensures r.n == |BuyersOf(inp, r.key)| && r.m == |r.clusters|
    ensures r.covered == |AnsweredOf(inp, r.key)|
    ensures forall a, b :: a in BuyersOf(inp, r.key) && b in BuyersOf(inp, r.key) ==>
      ((exists g :: g in r.clusters && a in AddressSet(g) && b in AddressSet(g)) <==> Linked(Funding(inp, r.key), a, b))
  {
    var buyers :| RowFrom(inp, r, buyers);
    BuyersAreListed(inp, r.key, buyers);
    assert TokenChecked(inp, r.key) == AnsweredOf(inp, r.key);
    forall a, b | a in BuyersOf(inp, r.key) && b in BuyersOf(inp, r.key)
      ensures (exists g :: g in r.clusters && a in AddressSet(g) && b in AddressSet(g)) <==> Linked(Funding(inp, r.key), a, b)
    {
      SameGroupIffLinked(buyers, ResultOf(r), a, b);
    }
  }

  /** Each member of a group shows its label and PnL, and is listed with the funders and coverage its calls gave. */
  lemma MembersCarry(inp: Inputs, r: TokenReport)
    requires IsRow(inp, r)
    ensures forall g, b :: g in r.clusters && b in g.members ==> Carries(inp, b) && b.address in BuyersOf(inp, r.key)
  {
    var buyers :| RowFrom(inp, r, buyers);
    BuyersAreListed(inp, r.key, buyers);
    forall g, b | g in r.clusters && b in g.members ensures Carries(inp, b) && b.address in BuyersOf(inp, r.key) {
      assert IsGroup(buyers, g) && b in buyers;
    }
  }

  // ---- The order of the rows ----

  /** The verdicts from the most concerning to the least; DISTRIBUTING and EXIT_ONLY stand level. */
  predicate MoreConcerning(v: Verdict, w: Verdict)
  {
    match v
    case Both => w != Both
    case Thin => w !in {Both, Thin}
    case Concentrated => w !in {Both, Thin, Concentrated}
    case Distributing => w in {Confirmed, Independent, Unverified, Weak}
    case ExitOnly => w in {Confirmed, Independent, Unverified, Weak}
    case Confirmed => w in {Independent, Unverified, Weak}
    case Independent => w in {Unverified, Weak}
    case Unverified => w == Weak
    case Weak => false
  }

  predicate ComesFirst(a: TokenReport, b: TokenReport)
  {
    || MoreConcerning(a.verdict, b.verdict)
    || (!MoreConcerning(b.verdict, a.verdict) && (a.n > b.n || (a.n == b.n && Less(a.key, b.key))))
  }

  /** The report goes by concern, then by the number of buyers, then by key. */
  lemma RowsInOrder(inp: Inputs, rows: seq<TokenReport>)
    requires IsReport(inp, rows)
    ensures forall i, j :: 0 <= i < j < |rows| ==> ComesFirst(rows[i], rows[j])
  {
    forall i, j | 0 <= i < j < |rows| ensures ComesFirst(rows[i], rows[j]) {
      assert ReportLess(rows[i], rows[j]);
      ConcernIsSeverity(rows[i].verdict, rows[j].verdict);
      ConcernIsSeverity(rows[j].verdict, rows[i].verdict);
    }
  }

  lemma ConcernIsSeverity(v: Verdict, w: Verdict)
    ensures MoreConcerning(v, w) <==> Severity(v) < Severity(w)
  {
  }

  /**
   CONFIRMED, end to end: at least three wallets bought the token, every
   related-wallets call for each of them succeeded, no two of them have a first
   funder in common and none was funded by another, the exchange side was
   observed and shows no exit, and enough was bought.
   */
  lemma ConfirmedFromOutcomes(inp: Inputs, r: TokenReport)
    requires IsRow(inp, r)
    ensures r.verdict == Confirmed <==>
      && |BuyersOf(inp, r.key)| >= 3 && AllAnswered(inp, r.key) && NoneTied(inp, r.key) && ExchangeSeen(inp, r.key)
      && !(inp.flow(r.key).value[0].smartTraderNetFlowUSD > 0.0 && inp.flow(r.key).value[0].exchangeNetFlowUSD > 0.0)
      && TokenBought(inp, r.key) >= inp.minSignalUSD
  {
    VerdictFromOutcomes(inp, r);
  }

  lemma CheckedFromOutcomes(inp: Inputs, k: string, buyers: seq<BuyerInput>)
    requires DistinctAddresses(buyers)
    requires GraphOf(buyers) == TokenGraph(inp, k) && Checked(buyers) == TokenChecked(inp, k)
    ensures AllChecked(buyers) <==> AllAnswered(inp, k)
  {
    FullCoverageIffAllChecked(buyers);
    NodeCount(buyers);
    assert TokenGraph(inp, k).Keys == BuyersOf(inp, k);
    if AllChecked(buyers) {
      SubsetSize(TokenChecked(inp, k), BuyersOf(inp, k));
      forall a, c | a in BuyersOf(inp, k) && c in ChainsFor(inp, a) ensures inp.related(a, c).Some? {
        assert a in TokenChecked(inp, k);
      }
    }
    if AllAnswered(inp, k) {
      assert TokenChecked(inp, k) == BuyersOf(inp, k);
    }
  }

  lemma EdgesFromOutcomes(inp: Inputs, k: string)
    ensures NoEdges(TokenGraph(inp, k)) <==> NoneTied(inp, k)
  {
    var g := TokenGraph(inp, k);
    if NoEdges(g) {
      forall a, b | a in BuyersOf(inp, k) && b in BuyersOf(inp, k) && a != b
        ensures FundersOf(inp, a) !! FundersOf(inp, b) && b !in FundersOf(inp, a)
      {
        assert !Edge(g, a, b);
        assert FundersOf(inp, a) * FundersOf(inp, b) == g[a] * g[b] == {};
        assert forall x :: x in FundersOf(inp, a) && x in FundersOf(inp, b) ==> x in FundersOf(inp, a) * FundersOf(inp, b);
      }
    } else {
      var a, b :| a != b && Edge(g, a, b);
    }
  }

  // ---- The report does not depend on the schedule ----

  /** What is shown of a group's member. */
  datatype Shown = Shown(address: string, label_: string, pnlUSD: real, winRate: real, funderChecked: bool)

  ghost function Show(b: BuyerInput): Shown
  {
    Shown(b.address, b.label_, b.pnlUSD, b.winRate, b.funderChecked)
  }

  ghost function ShownIn(clusters: seq<ClusterGroup>): (s: seq<seq<Shown>>)
    ensures |s| == |clusters|
  {
    seq(|clusters|, i requires 0 <= i < |clusters| => Map(clusters[i].members, b => Show(b)))
  }

  /** What a row says: everything but the order the funders happened to arrive in. */
  datatype Said = Said(key: string, verdict: Verdict, n: nat, m: nat, covered: nat, smartBoughtUSD: real, groups: seq<seq<Shown>>)

  ghost function SaidBy(r: TokenReport): Said
  {
    Said(r.key, r.verdict, r.n, r.m, r.covered, r.smartBoughtUSD, ShownIn(r.clusters))
  }

  ghost predicate SaidLess(a: Said, b: Said)
  {
    || Severity(a.verdict) < Severity(b.verdict)
    || (Severity(a.verdict) == Severity(b.verdict) && a.n > b.n)
    || (Severity(a.verdict) == Severity(b.verdict) && a.n == b.n && Less(a.key, b.key))
  }

  lemma SameKeySaysTheSame(inp: Inputs, r: TokenReport, s: TokenReport)
    requires IsRow(inp, r) && IsRow(inp, s) && r.key == s.key
    ensures SaidBy(r) == SaidBy(s)
  {
    var b :| RowFrom(inp, r, b);
    var c :| RowFrom(inp, s, c);
    ClusteringIsDetermined(b, c, ResultOf(r), ResultOf(s));
    MembersCarry(inp, r);
    MembersCarry(inp, s);
    forall i | 0 <= i < |r.clusters| ensures ShownIn(r.clusters)[i] == ShownIn(s.clusters)[i] {
      assert AddressLists(r.clusters)[i] == AddressLists(s.clusters)[i];
      SameMembersShown(inp, r.clusters[i].members, s.clusters[i].members);
    }
  }

  lemma SameMembersShown(inp: Inputs, ms: seq<BuyerInput>, ns: seq<BuyerInput>)
    requires AddressesOf(ms) == AddressesOf(ns)
    requires (forall b :: b in ms ==> Carries(inp, b)) && forall b :: b in ns ==> Carries(inp, b)
    ensures Map(ms, b => Show(b)) == Map(ns, b => Show(b))
  {
    forall i | 0 <= i < |ms| ensures Show(ms[i]) == Show(ns[i]) {
      assert AddressesOf(ms)[i] == ms[i].address && AddressesOf(ns)[i] == ns[i].address;
      assert ms[i] in ms && ns[i] in ns;
    }
  }

  ghost function SaidByAll(rows: seq<TokenReport>): seq<Said>
  {
    Map(rows, r => SaidBy(r))
  }

  lemma SaysSubset(inp: Inputs, rows: seq<TokenReport>, other: seq<TokenReport>)
    requires IsReport(inp, rows) && IsReport(inp, other)
    ensures forall x :: x in SaidByAll(rows) ==> x in SaidByAll(other)
  {
    forall x | x in SaidByAll(rows) ensures x in SaidByAll(other) {
      var i :| 0 <= i < |rows| && SaidBy(rows[i]) == x;
      assert rows[i] in rows && Map(rows, KeyOfRow)[i] in Elems(Map(rows, KeyOfRow));
      assert rows[i].key in Elems(Map(other, KeyOfRow));
      var j :| 0 <= j < |other| && other[j].key == rows[i].key;
      assert other[j] in other;
      SameKeySaysTheSame(inp, rows[i], other[j]);
      assert SaidByAll(other)[j] == x;
    }
  }

  /**
   With every call's outcome fixed, any two runs report the same tokens in the
   same order with the same verdict, N, M, coverage and groups, whatever the
   workers' interleaving and the map orders were.
   */
  lemma ReportIsDetermined(inp: Inputs, rows: seq<TokenReport>, other: seq<TokenReport>)
    requires IsReport(inp, rows) && IsReport(inp, other)
    ensures SaidByAll(rows) == SaidByAll(other)
  {
    SaysSubset(inp, rows, other);
    SaysSubset(inp, other, rows);
    LessIsStrictTotal();
    SaidStrictly(rows);
    SaidStrictly(other);
    StrictOrderIsUnique((a, b) => SaidLess(a, b), SaidByAll(rows), SaidByAll(other));
  }

  lemma SaidStrictly(rows: seq<TokenReport>)
    requires StrictlySortedBy(ReportLess, rows)
    ensures StrictlySortedBy((a, b) => SaidLess(a, b), SaidByAll(rows))
  {
    forall i, j | 0 <= i < j < |rows| ensures SaidLess(SaidByAll(rows)[i], SaidByAll(rows)[j]) {
      assert ReportLess(rows[i], rows[j]);
    }
  }

  // ---- Nothing but the replies to what was asked matters ----

  /** Two runs over one universe that get the same replies to everything the report is made of. */
  ghost predicate SameReplies(in1: Inputs, in2: Inputs)
  {
    && in1.universe == in2.universe && in1.minSignalUSD == in2.minSignalUSD
    && (forall a, c :: a in in1.universe.wallets && c in AskedUnder(in1.universe, a) ==> in1.related(a, c) == in2.related(a, c))
    && (forall a :: a in in1.universe.wallets ==> in1.pnl(a) == in2.pnl(a))
    && (forall k :: k in in1.universe.tokens ==> in1.flow(k) == in2.flow(k))
  }

  lemma {:induction false} SumOfEqual(s: set<string>, f: string -> real, g: string -> real)
    requires forall x :: x in s ==> f(x) == g(x)
    ensures Sum(s, f) == Sum(s, g)
    decreases |s|
  {
    if s != {} {
      var x :| x in s;
      SumWithout(s, f, x);
      SumWithout(s, g, x);
      SumOfEqual(s - {x}, f, g);
    }
  }

  lemma SameFunders(in1: Inputs, in2: Inputs, a: string)
    requires SameReplies(in1, in2) && a in in1.universe.wallets
    ensures FundersOf(in1, a) == FundersOf(in2, a) && (FullyChecked(in1, a) <==> FullyChecked(in2, a))
  {
    assert ChainsFor(in1, a) == ChainsFor(in2, a);
    assert forall c :: c in ChainsFor(in1, a) ==> in1.related(a, c) == in2.related(a, c);
  }

  lemma SameListings(in1: Inputs, in2: Inputs, a: string, funders: seq<Funder>)
    requires SameReplies(in1, in2) && a in in1.universe.wallets && NamedInReplies(in1, a, funders)
    ensures NamedInReplies(in2, a, funders)
  {
    forall f | f in funders
      ensures InReplies(in2, a, ChainsFor(in2, a), RelatedWallet(f.address, f.label_, "First Funder"))
    {
      var c :| c in ChainsFor(in1, a) && in1.related(a, c).Some? && RelatedWallet(f.address, f.label_, "First Funder") in in1.related(a, c).value;
      assert c in ChainsFor(in2, a) && in2.related(a, c) == in1.related(a, c);
    }
  }

  lemma SameTokenFacts(in1: Inputs, in2: Inputs, k: string)
    requires SameReplies(in1, in2)
    ensures TokenGraph(in1, k) == TokenGraph(in2, k) && TokenChecked(in1, k) == TokenChecked(in2, k)
    ensures TokenBought(in1, k) == TokenBought(in2, k)
  {
    assert BuyersOf(in1, k) == BuyersOf(in2, k);
    forall a | a in BuyersOf(in1, k)
      ensures FundersOf(in1, a) == FundersOf(in2, a) && (FullyChecked(in1, a) <==> FullyChecked(in2, a))
    {
      SameFunders(in1, in2, a);
    }
    SumOfEqual(in1.universe.wallets.Keys, TokenValue(in1, k), TokenValue(in2, k));
  }

  lemma RowCarriesOver(in1: Inputs, in2: Inputs, r: TokenReport)
    requires SameReplies(in1, in2) && IsRow(in1, r)
    ensures IsRow(in2, r)
  {
    var buyers :| RowFrom(in1, r, buyers);
    SameTokenFacts(in1, in2, r.key);
    assert MarketFor(in1, r.key, r.smartBoughtUSD) == MarketFor(in2, r.key, r.smartBoughtUSD);
    forall b | b in buyers ensures Carries(in2, b) {
      SameFunders(in1, in2, b.address);
      SameListings(in1, in2, b.address, b.funders);
    }
    assert RowFrom(in2, r, buyers);
  }

  /** Runs with the same replies say the same, whatever else their calls would have answered. */
  lemma OnlyRepliesMatter(in1: Inputs, in2: Inputs, rows1: seq<TokenReport>, rows2: seq<TokenReport>)
    requires SameReplies(in1, in2) && IsReport(in1, rows1) && IsReport(in2, rows2)
    ensures SaidByAll(rows1) == SaidByAll(rows2)
  {
    forall r | r in rows1 ensures IsRow(in2, r) {
      RowCarriesOver(in1, in2, r);
    }
    ReportIsDetermined(in2, rows1, rows2);
  }
}
