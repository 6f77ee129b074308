/** The wallet ranking: rank-normalised signals, two penalties, one total order. */
module Score {
  import opened Reals
  import opened Order
  import opened FunderGraph
  import opened Clusters
  import opened Verdict
  import opened Rank
  import opened Concentration
  import Collapse

  datatype Timestamp = Never | At(hours: real)

  datatype WalletInput = WalletInput(
    address: string,
    label_: string,
    realizedPnLUSD: real,
    winRate: real,
    funders: seq<Funder>,
    funderChecked: bool,
    lastTradeTime: Timestamp,
    boughtTokens: Trades)

  datatype TokenInput = TokenInput(
    key: string,
    smartTraderNetFlowUSD: real,
    exchangeNetFlowUSD: real,
    flowAvailable: bool)

  datatype WalletScore = WalletScore(
    address: string,
    label_: string,
    score: real,
    winRateNorm: real,
    pnlNorm: real,
    recencyNorm: real,
    concentrationNorm: real,
    distributionPenalty: real,
    clusterPenalty: real,
    clusterSize: nat)

  const WEIGHT_WIN_RATE := 0.45
  const WEIGHT_PNL := 0.30
  const WEIGHT_RECENCY := 0.125
  const WEIGHT_CONCENTRATION := 0.125
  const DISTRIBUTION_PENALTY_MAX := 0.15
  const CLUSTER_PENALTY_MAX := 0.10
  const CLUSTER_PENALTY_THRESHOLD := 2
  const CLUSTER_PENALTY_FULL_AT := 10

  // ---- Raw signals ----

  function Clamp01(v: real): real
  {
    if v < 0.0 then 0.0 else if v > 1.0 then 1.0 else v
  }

  /** All that is used of the library logarithm `log(1 + x)` on x >= 0. */
  ghost predicate IsLog1p(log1p: real -> real)
  {
    log1p(0.0) == 0.0 && forall x, y :: 0.0 <= x < y ==> log1p(x) < log1p(y)
  }

  function SignedLog1p(log1p: real -> real, v: real): real
  {
    if v >= 0.0 then log1p(v) else -log1p(-v)
  }

  /** More recent is larger; a wallet never seen to trade ranks below all others. */
  function RecencyRaw(last: Timestamp, ref: real): Value
  {
    match last
    case Never => Unknown
    case At(t) => Known(if ref - t < 0.0 then 0.0 else -(ref - t))
  }

  function ClusterPenaltyFor(size: nat): real
  {
    if size <= CLUSTER_PENALTY_THRESHOLD then 0.0
    else
      var frac := (size - CLUSTER_PENALTY_THRESHOLD) as real / (CLUSTER_PENALTY_FULL_AT - CLUSTER_PENALTY_THRESHOLD) as real;
      if frac > 1.0 then 1.0 else frac
  }

  // ---- The row of one wallet within its cohort ----

  function BuyerOf(w: WalletInput): BuyerInput
  {
    BuyerInput(w.address, w.label_, 0.0, 0.0, w.funders, false)
  }

  function WinRateOf(w: WalletInput): Value
  {
    Known(Clamp01(w.winRate))
  }

  function LogPnLOf(log1p: real -> real): WalletInput -> Value
  {
    (w: WalletInput) => Known(SignedLog1p(log1p, w.realizedPnLUSD))
  }

  function RecencyOf(ref: real): WalletInput -> Value
  {
    (w: WalletInput) => RecencyRaw(w.lastTradeTime, ref)
  }

  ghost function HerfindahlOf(): WalletInput -> Value
  {
    (w: WalletInput) => Known(Herfindahl(w.boughtTokens))
  }

  ghost predicate DistinctWallets(wallets: seq<WalletInput>)
  {
    forall i, j :: 0 <= i < j < |wallets| ==> wallets[i].address != wallets[j].address
  }

  ghost predicate DistinctKeys(tokens: seq<TokenInput>)
  {
    forall i, j :: 0 <= i < j < |tokens| ==> tokens[i].key != tokens[j].key
  }

  predicate Fires(t: TokenInput)
  {
    ExitSignal(t.smartTraderNetFlowUSD, t.exchangeNetFlowUSD, t.flowAvailable)
  }

  function FlaggedKeys(tokens: seq<TokenInput>): set<string>
  {
    set t | t in tokens && Fires(t) :: t.key
  }

  /** The share of the value bought that sits in flagged tokens. */
  ghost function FlaggedShare(bought: Trades, flagged: set<string>): real
  {
    if Total(bought) <= 0.0 then 0.0 else ValueIn(bought, flagged) / Total(bought)
  }

  ghost function CohortGraph(wallets: seq<WalletInput>): Graph
    requires DistinctWallets(wallets)
  {
    GraphOf(Map(wallets, BuyerOf))
  }

  /** Where one wallet stands in its cohort: four normalised ranks, its flagged share, its cluster's size. */
  datatype Standing = Standing(winRate: real, pnl: real, recency: real, concentration: real, flaggedShare: real, clusterSize: nat)

  ghost function StandingOf(wallets: seq<WalletInput>, tokens: seq<TokenInput>, ref: real, log1p: real -> real, w: WalletInput): Standing
    requires DistinctWallets(wallets)
  {
    Standing(
      Norm(Map(wallets, WinRateOf), WinRateOf(w)),
      Norm(Map(wallets, LogPnLOf(log1p)), LogPnLOf(log1p)(w)),
      Norm(Map(wallets, RecencyOf(ref)), RecencyOf(ref)(w)),
      Norm(Map(wallets, HerfindahlOf()), HerfindahlOf()(w)),
      FlaggedShare(w.boughtTokens, FlaggedKeys(tokens)),
      |Component(CohortGraph(wallets), w.address)|)
  }

  /** The score that a standing combines to. */
  function Scored(w: WalletInput, s: Standing): WalletScore
  {
    var distPenalty := s.flaggedShare * DISTRIBUTION_PENALTY_MAX;
    var clusterPenalty := ClusterPenaltyFor(s.clusterSize) * CLUSTER_PENALTY_MAX;
    var raw := WEIGHT_WIN_RATE * s.winRate + WEIGHT_PNL * s.pnl + WEIGHT_RECENCY * s.recency +
      WEIGHT_CONCENTRATION * s.concentration - distPenalty - clusterPenalty;
    WalletScore(w.address, w.label_, Clamp01(raw), s.winRate, s.pnl, s.recency, s.concentration, distPenalty, clusterPenalty, s.clusterSize)
  }

  ghost function Row(wallets: seq<WalletInput>, tokens: seq<TokenInput>, ref: real, log1p: real -> real, w: WalletInput): WalletScore
    requires DistinctWallets(wallets)
  {
    Scored(w, StandingOf(wallets, tokens, ref, log1p, w))
  }

  // ---- The ranking ----

  function ScoreOf(s: WalletScore): real
  {
    s.score
  }

  function AddressOf(s: WalletScore): string
  {
    s.address
  }

  predicate Outranks(a: WalletScore, b: WalletScore)
  {
    a.score > b.score || (a.score == b.score && Less(a.address, b.address))
  }

  ghost function RowIn(wallets: seq<WalletInput>, tokens: seq<TokenInput>, ref: real, log1p: real -> real): WalletInput -> WalletScore
    requires DistinctWallets(wallets)
  {
    (w: WalletInput) => Row(wallets, tokens, ref, log1p, w)
  }

  /** One row per wallet, strictly ordered by score and then address. */
  ghost predicate IsRanking(wallets: seq<WalletInput>, tokens: seq<TokenInput>, ref: real, log1p: real -> real, out: seq<WalletScore>)
    requires DistinctWallets(wallets)
  {
    && multiset(out) == multiset(Map(wallets, RowIn(wallets, tokens, ref, log1p)))
    && StrictlySortedBy(Outranks, out)
  }

  lemma CohortAddresses(wallets: seq<WalletInput>)
    requires DistinctWallets(wallets)
    ensures DistinctAddresses(Map(wallets, BuyerOf))
  {
  }

  /** A wallet without its funders; no signal but the cluster size reads them. */
  function Strip(w: WalletInput): WalletInput
  {
    w.(funders := [], funderChecked := false)
  }

  /** What the ranking reads of a wallet: everything but the order and labels of its funders. */
  function Shape(w: WalletInput): (WalletInput, set<string>)
  {
    (Strip(w), FunderSet(BuyerOf(w)))
  }

  function Stripped(p: (WalletInput, set<string>)): WalletInput
  {
    p.0
  }

  /** The same wallets in any order, each with its funders in any order. */
  ghost predicate SameWallets(w1: seq<WalletInput>, w2: seq<WalletInput>)
  {
    multiset(Map(w1, Shape)) == multiset(Map(w2, Shape))
  }

  lemma SameStripped(w1: seq<WalletInput>, w2: seq<WalletInput>)
    requires SameWallets(w1, w2)
    ensures multiset(Map(w1, Strip)) == multiset(Map(w2, Strip))
  {
    MapOfPermutation(Map(w1, Shape), Map(w2, Shape), Stripped);
    assert Map(Map(w1, Shape), Stripped) == Map(w1, Strip) && Map(Map(w2, Shape), Stripped) == Map(w2, Strip);
  }

  ghost predicate IgnoresFunders<T(!new)>(f: WalletInput -> T)
  {
    forall w :: f(Strip(w)) == f(w)
  }

  lemma SameMapped<T(!new)>(w1: seq<WalletInput>, w2: seq<WalletInput>, f: WalletInput -> T)
    requires SameWallets(w1, w2) && IgnoresFunders(f)
    ensures multiset(Map(w1, f)) == multiset(Map(w2, f))
  {
    SameStripped(w1, w2);
    MapOfPermutation(Map(w1, Strip), Map(w2, Strip), f);
    assert Map(Map(w1, Strip), f) == Map(w1, f) && Map(Map(w2, Strip), f) == Map(w2, f);
  }

  lemma SameNorm(w1: seq<WalletInput>, w2: seq<WalletInput>, f: WalletInput -> Value, v: Value)
    requires SameWallets(w1, w2) && IgnoresFunders(f)
    ensures Norm(Map(w1, f), v) == Norm(Map(w2, f), v)
  {
    SameMapped(w1, w2, f);
    PermutationFacts(Map(w1, f), Map(w2, f));
    CountsOfPermutation(Map(w1, f), Map(w2, f), v);
  }

  lemma CohortAt(wallets: seq<WalletInput>, i: nat)
    requires DistinctWallets(wallets) && i < |wallets|
    ensures wallets[i].address in CohortGraph(wallets)
    ensures CohortGraph(wallets)[wallets[i].address] == FunderSet(BuyerOf(wallets[i]))
  {
    var buyers := Map(wallets, BuyerOf);
    assert buyers[i] in buyers;
    GraphAt(buyers, buyers[i]);
  }

  lemma InCohort(wallets: seq<WalletInput>, a: string) returns (i: nat)
    requires DistinctWallets(wallets) && a in CohortGraph(wallets)
    ensures i < |wallets| && wallets[i].address == a
  {
    var buyers := Map(wallets, BuyerOf);
    var b :| b in buyers && b.address == a;
    i :| 0 <= i < |buyers| && buyers[i] == b;
  }

  lemma SameShapeIn(w1: seq<WalletInput>, w2: seq<WalletInput>, i: nat) returns (j: nat)
    requires SameWallets(w1, w2) && i < |w1|
    ensures j < |w2| && Strip(w2[j]) == Strip(w1[i]) && FunderSet(BuyerOf(w2[j])) == FunderSet(BuyerOf(w1[i]))
  {
    PermutationFacts(Map(w1, Shape), Map(w2, Shape));
    assert Map(w1, Shape)[i] in Map(w2, Shape);
    j :| 0 <= j < |w2| && Map(w2, Shape)[j] == Shape(w1[i]);
  }

  lemma GraphFromShape(w1: seq<WalletInput>, w2: seq<WalletInput>, a: string)
    requires DistinctWallets(w1) && DistinctWallets(w2) && SameWallets(w1, w2) && a in CohortGraph(w1)
    ensures a in CohortGraph(w2) && CohortGraph(w1)[a] == CohortGraph(w2)[a]
  {
    var i := InCohort(w1, a);
    var j := SameShapeIn(w1, w2, i);
    CohortAt(w1, i);
    CohortAt(w2, j);
    assert w2[j].address == Strip(w2[j]).address;
  }

  lemma SameGraph(w1: seq<WalletInput>, w2: seq<WalletInput>)
    requires DistinctWallets(w1) && DistinctWallets(w2) && SameWallets(w1, w2)
    ensures CohortGraph(w1) == CohortGraph(w2)
  {
    forall a | a in CohortGraph(w1) ensures a in CohortGraph(w2) && CohortGraph(w1)[a] == CohortGraph(w2)[a] {
      GraphFromShape(w1, w2, a);
    }
    forall a | a in CohortGraph(w2) ensures a in CohortGraph(w1) {
      GraphFromShape(w2, w1, a);
    }
  }

  lemma SameStanding(w1: seq<WalletInput>, w2: seq<WalletInput>, t1: seq<TokenInput>, t2: seq<TokenInput>,
                     ref: real, log1p: real -> real, w: WalletInput)
    requires DistinctWallets(w1) && DistinctWallets(w2) && SameWallets(w1, w2) && multiset(t1) == multiset(t2)
    ensures StandingOf(w1, t1, ref, log1p, w) == StandingOf(w2, t2, ref, log1p, w)
  {
    SameNorm(w1, w2, WinRateOf, WinRateOf(w));
    SameNorm(w1, w2, LogPnLOf(log1p), LogPnLOf(log1p)(w));
    SameNorm(w1, w2, RecencyOf(ref), RecencyOf(ref)(w));
    SameNorm(w1, w2, HerfindahlOf(), HerfindahlOf()(w));
    SameGraph(w1, w2);
    SameFlags(t1, t2);
  }

  lemma SameFlags(t1: seq<TokenInput>, t2: seq<TokenInput>)
    requires multiset(t1) == multiset(t2)
    ensures FlaggedKeys(t1) == FlaggedKeys(t2)
  {
    PermutationFacts(t1, t2);
  }

  lemma OutranksIsAsymmetric()
    ensures Asymmetric(Outranks)
  {
    LessIsStrictTotal();
  }

  /**
   The ranking is the same sequence for every order of the wallets, of each
   wallet's funders and of the tokens: the first and last come from randomly
   walked maps, the funders from whichever call finished first.
   */
  lemma RankingIsDetermined(w1: seq<WalletInput>, w2: seq<WalletInput>, t1: seq<TokenInput>, t2: seq<TokenInput>,
                            ref: real, log1p: real -> real, out1: seq<WalletScore>, out2: seq<WalletScore>)
    requires DistinctWallets(w1) && DistinctWallets(w2) && SameWallets(w1, w2) && multiset(t1) == multiset(t2)
    requires IsRanking(w1, t1, ref, log1p, out1) && IsRanking(w2, t2, ref, log1p, out2)
    ensures out1 == out2
  {
    var row := RowIn(w2, t2, ref, log1p);
    forall w ensures RowIn(w1, t1, ref, log1p)(w) == row(w) {
      SameStanding(w1, w2, t1, t2, ref, log1p, w);
    }
    assert Map(w1, RowIn(w1, t1, ref, log1p)) == Map(w1, row);
    RowIgnoresFunders(w2, t2, ref, log1p);
    SameMapped(w1, w2, row);
    PermutationFacts(out1, out2);
    OutranksIsAsymmetric();
    StrictOrderIsUnique(Outranks, out1, out2);
  }

  lemma RowIgnoresFunders(wallets: seq<WalletInput>, tokens: seq<TokenInput>, ref: real, log1p: real -> real)
    requires DistinctWallets(wallets)
    ensures IgnoresFunders(RowIn(wallets, tokens, ref, log1p))
  {
    forall w ensures RowIn(wallets, tokens, ref, log1p)(Strip(w)) == RowIn(wallets, tokens, ref, log1p)(w) {
      assert StandingOf(wallets, tokens, ref, log1p, Strip(w)) == StandingOf(wallets, tokens, ref, log1p, w);
    }
  }

  /** Every wallet has exactly one row, and every score lies in [0, 1]. */
  lemma RankingListsEveryWallet(wallets: seq<WalletInput>, tokens: seq<TokenInput>, ref: real, log1p: real -> real, out: seq<WalletScore>)
    requires DistinctWallets(wallets) && IsRanking(wallets, tokens, ref, log1p, out)
    ensures multiset(Map(out, AddressOf)) == multiset(Map(wallets, (w: WalletInput) => w.address))
    ensures forall s :: s in out ==> 0.0 <= s.score <= 1.0
  {
    var row := RowIn(wallets, tokens, ref, log1p);
    var rows := Map(wallets, row);
    forall w ensures row(w).address == w.address && 0.0 <= row(w).score <= 1.0 {
      ScoreInUnit(w, StandingOf(wallets, tokens, ref, log1p, w));
    }
    MapOfPermutation(out, rows, AddressOf);
    assert Map(rows, AddressOf) == Map(wallets, (w: WalletInput) => w.address);
    PermutationFacts(out, rows);
    forall s | s in out ensures 0.0 <= s.score <= 1.0 {
      assert s in rows;
    }
  }

  lemma ScoreInUnit(w: WalletInput, s: Standing)
    ensures 0.0 <= Scored(w, s).score <= 1.0 && Scored(w, s).address == w.address
  {
  }

  ghost predicate InUnit(s: Standing)
  {
    0.0 <= s.winRate <= 1.0 && 0.0 <= s.pnl <= 1.0 && 0.0 <= s.recency <= 1.0 && 0.0 <= s.concentration <= 1.0 && 0.0 <= s.flaggedShare <= 1.0
  }

  lemma NormOfMember(wallets: seq<WalletInput>, f: WalletInput -> Value, w: WalletInput)
    requires w in wallets
    ensures 0.0 <= Norm(Map(wallets, f), f(w)) <= 1.0
  {
    var i :| 0 <= i < |wallets| && wallets[i] == w;
    assert Map(wallets, f)[i] == f(w);
    NormInUnit(Map(wallets, f), f(w));
  }

  lemma ShareInUnit(part: real, total: real)
    requires 0.0 <= part <= total && total > 0.0
    ensures 0.0 <= part / total <= 1.0
  {
    RatioToOne(part, total);
  }

  /** Every standing lies in the unit cube, for trades of non-negative value. */
  lemma StandingInUnit(wallets: seq<WalletInput>, tokens: seq<TokenInput>, ref: real, log1p: real -> real, w: WalletInput)
    requires DistinctWallets(wallets) && w in wallets && NonNegative(w.boughtTokens)
    ensures InUnit(StandingOf(wallets, tokens, ref, log1p, w))
  {
    NormOfMember(wallets, WinRateOf, w);
    NormOfMember(wallets, LogPnLOf(log1p), w);
    NormOfMember(wallets, RecencyOf(ref), w);
    NormOfMember(wallets, HerfindahlOf(), w);
    PartOfTotal(w.boughtTokens, FlaggedKeys(tokens));
    if Total(w.boughtTokens) > 0.0 {
      ShareInUnit(ValueIn(w.boughtTokens, FlaggedKeys(tokens)), Total(w.boughtTokens));
    }
  }

  /** At least as good on every signal, and penalised no more. */
  ghost predicate NoWorse(s: Standing, t: Standing)
  {
    && s.winRate >= t.winRate && s.pnl >= t.pnl && s.recency >= t.recency && s.concentration >= t.concentration
    && s.flaggedShare <= t.flaggedShare && s.clusterSize <= t.clusterSize
  }

  /**
   What the score promises: a wallet that is no worse on anything scores no
   lower; a wallet with nothing flagged and at most one companion loses nothing,
   and its score needs no clamping; the worst of both penalties costs at most a
   quarter; and top ranks alone reach 1.
   */
  lemma ScoreMeaning(w: WalletInput, s: Standing, t: Standing)
    requires InUnit(s) && InUnit(t)
    ensures NoWorse(s, t) ==> Scored(w, s).score >= Scored(w, t).score
    ensures s.flaggedShare == 0.0 && s.clusterSize <= 2 ==> Scored(w, s).score == WeightedRanks(s)
    ensures WeightedRanks(s) - 0.25 <= Scored(w, s).score <= WeightedRanks(s)
    ensures Scored(w, s).score == 1.0 <==> TopRanks(s) && s.flaggedShare == 0.0 && s.clusterSize <= 2
  {
    PenaltyGrows(t.clusterSize, s.clusterSize);
    PenaltyGrows(s.clusterSize, t.clusterSize);
  }

  ghost predicate TopRanks(s: Standing)
  {
    s.winRate == 1.0 && s.pnl == 1.0 && s.recency == 1.0 && s.concentration == 1.0
  }

  ghost function WeightedRanks(s: Standing): real
  {
    0.45 * s.winRate + 0.30 * s.pnl + 0.125 * s.recency + 0.125 * s.concentration
  }

  lemma PenaltyGrows(small: nat, large: nat)
    ensures 0.0 <= ClusterPenaltyFor(large) <= 1.0
    ensures ClusterPenaltyFor(large) == 0.0 <==> large <= 2
    ensures ClusterPenaltyFor(large) == 1.0 <==> large >= 10
    ensures small <= large ==> ClusterPenaltyFor(small) <= ClusterPenaltyFor(large)
  {
  }

  // ---- What a row says ----

  /** Each wallet with the addresses it lists as funders. */
  ghost function FundingGraph(wallets: seq<WalletInput>): Graph
    requires DistinctWallets(wallets)
  {
    map w | w in wallets :: w.address := set f | f in w.funders :: f.address
  }

  /** The wallets that `a` is linked to by shared funders and funding. */
  ghost function CompanionsOf(wallets: seq<WalletInput>, a: string): set<string>
    requires DistinctWallets(wallets)
  {
    set b | b in FundingGraph(wallets) && Linked(FundingGraph(wallets), a, b)
  }

  /** The tokens that smart traders are buying while exchanges take them in. */
  ghost function Distributing(tokens: seq<TokenInput>): set<string>
  {
    set t | t in tokens && t.flowAvailable && t.smartTraderNetFlowUSD > 0.0 && t.exchangeNetFlowUSD > 0.0 :: t.key
  }

  /** The score is the weighted norms less the penalties, held to [0, 1]. */
  ghost predicate ScoreAddsUp(s: WalletScore)
  {
    var sum := 0.45 * s.winRateNorm + 0.30 * s.pnlNorm + 0.125 * s.recencyNorm + 0.125 * s.concentrationNorm
      - s.distributionPenalty - s.clusterPenalty;
    (0.0 <= sum <= 1.0 ==> s.score == sum) && (sum < 0.0 ==> s.score == 0.0) && (sum > 1.0 ==> s.score == 1.0)
  }

  /** 0.15 of the share of the wallet's purchases that is in distributing tokens. */
  ghost predicate DistributionAddsUp(tokens: seq<TokenInput>, w: WalletInput, s: WalletScore)
  {
    var spent := Total(w.boughtTokens);
    s.distributionPenalty == if spent <= 0.0 then 0.0 else 0.15 * (ValueIn(w.boughtTokens, Distributing(tokens)) / spent)
  }

  /** Nothing up to two linked wallets, 0.10 from ten, linear between. */
  ghost predicate ClusterAddsUp(wallets: seq<WalletInput>, w: WalletInput, s: WalletScore)
    requires DistinctWallets(wallets)
  {
    && s.clusterSize == |CompanionsOf(wallets, w.address)|
    && (s.clusterSize <= 2 ==> s.clusterPenalty == 0.0)
    && (2 <= s.clusterSize <= 10 ==> s.clusterPenalty == 0.10 * ((s.clusterSize - 2) as real / 8.0))
    && (s.clusterSize >= 10 ==> s.clusterPenalty == 0.10)
  }

  ghost predicate RowAddsUp(wallets: seq<WalletInput>, tokens: seq<TokenInput>, w: WalletInput, s: WalletScore)
    requires DistinctWallets(wallets)
  {
    s.label_ == w.label_ && ScoreAddsUp(s) && DistributionAddsUp(tokens, w, s) && ClusterAddsUp(wallets, w, s)
  }

  lemma CohortIsFunding(wallets: seq<WalletInput>)
    requires DistinctWallets(wallets)
    ensures CohortGraph(wallets) == FundingGraph(wallets)
  {
    forall a | a in CohortGraph(wallets) ensures a in FundingGraph(wallets) && CohortGraph(wallets)[a] == FundingGraph(wallets)[a] {
      var i := InCohort(wallets, a);
      CohortAt(wallets, i);
      assert wallets[i] in wallets;
    }
    forall a | a in FundingGraph(wallets) ensures a in CohortGraph(wallets) {
      var w :| w in wallets && w.address == a;
      var i :| 0 <= i < |wallets| && wallets[i] == w;
      CohortAt(wallets, i);
    }
  }

  lemma PenaltyIsLinear(size: nat)
    ensures size <= 2 ==> ClusterPenaltyFor(size) * CLUSTER_PENALTY_MAX == 0.0
    ensures 2 <= size <= 10 ==> ClusterPenaltyFor(size) * CLUSTER_PENALTY_MAX == 0.10 * ((size - 2) as real / 8.0)
    ensures size >= 10 ==> ClusterPenaltyFor(size) * CLUSTER_PENALTY_MAX == 0.10
  {
  }

  lemma ScoredAddsUp(w: WalletInput, s: Standing)
    ensures ScoreAddsUp(Scored(w, s)) && Scored(w, s).clusterSize == s.clusterSize
    ensures Scored(w, s).distributionPenalty == s.flaggedShare * 0.15
    ensures Scored(w, s).clusterPenalty == ClusterPenaltyFor(s.clusterSize) * CLUSTER_PENALTY_MAX
  {
  }

  lemma CompanionsAreCluster(wallets: seq<WalletInput>, w: WalletInput, s: WalletScore)
    requires DistinctWallets(wallets) && s.clusterSize == |Component(CohortGraph(wallets), w.address)|
    requires s.clusterPenalty == ClusterPenaltyFor(s.clusterSize) * CLUSTER_PENALTY_MAX
    ensures ClusterAddsUp(wallets, w, s)
  {
    CohortIsFunding(wallets);
    assert CompanionsOf(wallets, w.address) == Component(CohortGraph(wallets), w.address);
    PenaltyIsLinear(s.clusterSize);
  }

  lemma FlaggedIsDistributing(tokens: seq<TokenInput>, w: WalletInput, s: WalletScore)
    requires s.distributionPenalty == FlaggedShare(w.boughtTokens, FlaggedKeys(tokens)) * 0.15
    ensures DistributionAddsUp(tokens, w, s)
  {
    assert FlaggedKeys(tokens) == Distributing(tokens);
  }

  lemma RowSums(wallets: seq<WalletInput>, tokens: seq<TokenInput>, w: WalletInput, s: WalletScore, at: Standing)
    requires DistinctWallets(wallets) && s == Scored(w, at)
    requires at.flaggedShare == FlaggedShare(w.boughtTokens, FlaggedKeys(tokens))
    requires at.clusterSize == |Component(CohortGraph(wallets), w.address)|
    ensures RowAddsUp(wallets, tokens, w, s)
  {
    ScoredAddsUp(w, at);
    CompanionsAreCluster(wallets, w, s);
    FlaggedIsDistributing(tokens, w, s);
  }

  /** `v` traded later than `w`, times after `ref` counting as `ref`, and a wallet never seen to trade coming before all others. */
  predicate TradedLater(v: WalletInput, w: WalletInput, ref: real)
  {
    v.lastTradeTime.At? && (w.lastTradeTime.Never? || (v.lastTradeTime.hours > w.lastTradeTime.hours && w.lastTradeTime.hours < ref))
  }

  /** `v` wins more often, rates outside [0, 1] counting as the nearer end. */
  predicate WinsMore(v: WalletInput, w: WalletInput)
  {
    v.winRate > w.winRate && v.winRate > 0.0 && w.winRate < 1.0
  }

  /** Which of two wallets ranks higher on each signal, and when they tie. */
  ghost predicate RanksByFacts(v: WalletInput, s: WalletScore, w: WalletInput, t: WalletScore, ref: real)
  {
    && (s.winRateNorm > t.winRateNorm <==> WinsMore(v, w))
    && (s.pnlNorm > t.pnlNorm <==> v.realizedPnLUSD > w.realizedPnLUSD)
    && (s.recencyNorm > t.recencyNorm <==> TradedLater(v, w, ref))
    && (s.concentrationNorm > t.concentrationNorm <==> Herfindahl(v.boughtTokens) > Herfindahl(w.boughtTokens))
  }

  lemma NormOrders(wallets: seq<WalletInput>, f: WalletInput -> Value, v: WalletInput, w: WalletInput)
    requires v in wallets && w in wallets
    ensures Below(f(w), f(v)) <==> Norm(Map(wallets, f), f(v)) > Norm(Map(wallets, f), f(w))
  {
    var i :| 0 <= i < |wallets| && wallets[i] == v;
    var j :| 0 <= j < |wallets| && wallets[j] == w;
    assert Map(wallets, f)[i] == f(v) && Map(wallets, f)[j] == f(w);
    NormKeepsOrder(Map(wallets, f), f(w), f(v));
  }

  lemma LogKeepsOrder(log1p: real -> real, x: real, y: real)
    requires IsLog1p(log1p)
    ensures SignedLog1p(log1p, x) < SignedLog1p(log1p, y) <==> x < y
  {
    if x < y {
      SignedLogIncreases(log1p, x, y);
    } else if y < x {
      SignedLogIncreases(log1p, y, x);
    }
  }

  lemma SignalsOrder(ref: real, log1p: real -> real, v: WalletInput, w: WalletInput)
    requires IsLog1p(log1p)
    ensures Below(WinRateOf(w), WinRateOf(v)) <==> WinsMore(v, w)
    ensures Below(LogPnLOf(log1p)(w), LogPnLOf(log1p)(v)) <==> v.realizedPnLUSD > w.realizedPnLUSD
    ensures Below(RecencyOf(ref)(w), RecencyOf(ref)(v)) <==> TradedLater(v, w, ref)
    ensures Below(HerfindahlOf()(w), HerfindahlOf()(v)) <==> Herfindahl(v.boughtTokens) > Herfindahl(w.boughtTokens)
  {
    LogKeepsOrder(log1p, w.realizedPnLUSD, v.realizedPnLUSD);
  }

  lemma StandingsOrder(
    wallets: seq<WalletInput>, tokens: seq<TokenInput>, ref: real, log1p: real -> real, v: WalletInput, w: WalletInput,
    s: Standing, t: Standing)
    requires DistinctWallets(wallets) && IsLog1p(log1p) && v in wallets && w in wallets
    requires s == StandingOf(wallets, tokens, ref, log1p, v) && t == StandingOf(wallets, tokens, ref, log1p, w)
    ensures s.winRate > t.winRate <==> WinsMore(v, w)
    ensures s.pnl > t.pnl <==> v.realizedPnLUSD > w.realizedPnLUSD
    ensures s.recency > t.recency <==> TradedLater(v, w, ref)
    ensures s.concentration > t.concentration <==> Herfindahl(v.boughtTokens) > Herfindahl(w.boughtTokens)
  {
    SignalsOrder(ref, log1p, v, w);
    NormOrders(wallets, WinRateOf, v, w);
    NormOrders(wallets, LogPnLOf(log1p), v, w);
    NormOrders(wallets, RecencyOf(ref), v, w);
    NormOrders(wallets, HerfindahlOf(), v, w);
  }

  lemma RowsOrder(
    wallets: seq<WalletInput>, tokens: seq<TokenInput>, ref: real, log1p: real -> real, v: WalletInput, w: WalletInput)
    requires DistinctWallets(wallets) && IsLog1p(log1p) && v in wallets && w in wallets
    ensures RanksByFacts(v, Row(wallets, tokens, ref, log1p, v), w, Row(wallets, tokens, ref, log1p, w), ref)
  {
    StandingsOrder(wallets, tokens, ref, log1p, v, w,
                   StandingOf(wallets, tokens, ref, log1p, v), StandingOf(wallets, tokens, ref, log1p, w));
  }

  lemma {:induction false} RowOfWallet(
    wallets: seq<WalletInput>, tokens: seq<TokenInput>, ref: real, log1p: real -> real, out: seq<WalletScore>, s: WalletScore, v: WalletInput)
    requires DistinctWallets(wallets) && IsRanking(wallets, tokens, ref, log1p, out)
    requires s in out && v in wallets && s.address == v.address
    ensures s == Row(wallets, tokens, ref, log1p, v)
  {
    PermutationFacts(out, Map(wallets, RowIn(wallets, tokens, ref, log1p)));
    var i := PlaceOf(wallets, RowIn(wallets, tokens, ref, log1p), s);
    var j :| 0 <= j < |wallets| && wallets[j] == v;
    assert wallets[i].address == s.address;
  }

  lemma PlaceOf<T>(wallets: seq<WalletInput>, f: WalletInput -> T, x: T) returns (i: nat)
    requires x in Map(wallets, f)
    ensures i < |wallets| && f(wallets[i]) == x
  {
    i :| 0 <= i < |wallets| && Map(wallets, f)[i] == x;
  }

  /**
   The rows in terms of the inputs: every row adds up; of two wallets the one
   with the better raw signal has the higher norm, and only then; and the rows
   come by score, equal scores by address.
   */
  lemma RankingMeans(wallets: seq<WalletInput>, tokens: seq<TokenInput>, ref: real, log1p: real -> real, out: seq<WalletScore>)
    requires DistinctWallets(wallets) && IsLog1p(log1p) && IsRanking(wallets, tokens, ref, log1p, out)
    ensures forall s, v :: s in out && v in wallets && s.address == v.address ==> RowAddsUp(wallets, tokens, v, s)
    ensures forall s, v, t, w :: s in out && v in wallets && s.address == v.address && t in out && w in wallets && t.address == w.address ==>
      RanksByFacts(v, s, w, t, ref)
    ensures forall i, j :: 0 <= i < j < |out| ==>
      out[i].score > out[j].score || (out[i].score == out[j].score && Less(out[i].address, out[j].address))
  {
    forall s, v | s in out && v in wallets && s.address == v.address ensures RowAddsUp(wallets, tokens, v, s) {
      RowOfWallet(wallets, tokens, ref, log1p, out, s, v);
      RowSums(wallets, tokens, v, s, StandingOf(wallets, tokens, ref, log1p, v));
    }
    forall s, v, t, w | s in out && v in wallets && s.address == v.address && t in out && w in wallets && t.address == w.address
      ensures RanksByFacts(v, s, w, t, ref)
    {
      RowOfWallet(wallets, tokens, ref, log1p, out, s, v);
      RowOfWallet(wallets, tokens, ref, log1p, out, t, w);
      RowsOrder(wallets, tokens, ref, log1p, v, w);
    }
    forall i, j | 0 <= i < j < |out| ensures Outranks(out[i], out[j]) {
    }
  }

  // ---- Scale and outliers ----

  lemma SignedLogIncreases(log1p: real -> real, x: real, y: real)
    requires IsLog1p(log1p) && x < y
    ensures SignedLog1p(log1p, x) < SignedLog1p(log1p, y)
  {
    if x < 0.0 {
      assert log1p(0.0) < log1p(-x);
      if y < 0.0 {
        assert log1p(-y) < log1p(-x);
      } else {
        assert y == 0.0 || log1p(0.0) < log1p(y);
      }
    }
  }

  function OnKnown(f: real -> real): Value -> Value
  {
    (v: Value) => match v case Unknown => Unknown case Known(x) => Known(f(x))
  }

  /**
   The PnL norm is the rank of the raw PnL: taking the signed logarithm first
   changes nothing.
   */
  lemma PnLNormIgnoresLog(wallets: seq<WalletInput>, log1p: real -> real, w: WalletInput)
    requires IsLog1p(log1p)
    ensures Norm(Map(wallets, LogPnLOf(log1p)), LogPnLOf(log1p)(w))
         == Norm(Map(wallets, (x: WalletInput) => Known(x.realizedPnLUSD)), Known(w.realizedPnLUSD))
  {
    var raw := Map(wallets, (x: WalletInput) => Known(x.realizedPnLUSD));
    var f := OnKnown(v => SignedLog1p(log1p, v));
    forall a, b | Below(a, b) ensures Below(f(a), f(b)) {
      if a.Known? {
        SignedLogIncreases(log1p, a.v, b.v);
      }
    }
    NormIgnoresScale(raw, f, Known(w.realizedPnLUSD));
    assert Map(raw, f) == Map(wallets, LogPnLOf(log1p));
  }

  // ---- The computation ----

  method DistributionPenalty(bought: Trades, distributing: map<string, bool>) returns (share: real)
    ensures share == FlaggedShare(bought, set k | k in distributing && distributing[k])
  {
    ghost var flaggedKeys := set k | k in distributing && distributing[k];
    var total, flagged := 0.0, 0.0;
    for i := 0 to |bought|
      invariant total == Total(bought[..i]) && flagged == ValueIn(bought[..i], flaggedKeys)
    {
      assert DropLast(bought[..i + 1]) == bought[..i];
      total := total + bought[i].tradeValueUSD;
      if bought[i].tokenKey in distributing && distributing[bought[i].tokenKey] {
        flagged := flagged + bought[i].tradeValueUSD;
      }
    }
    assert bought[..|bought|] == bought;
    share := if total <= 0.0 then 0.0 else flagged / total;
  }

  method FindDistributing(tokens: seq<TokenInput>) returns (distributing: map<string, bool>)
    requires DistinctKeys(tokens)
    ensures (set k | k in distributing && distributing[k]) == FlaggedKeys(tokens)
  {
    distributing := map[];
    for i := 0 to |tokens|
      invariant forall k :: k in distributing ==> exists j :: 0 <= j < i && tokens[j].key == k
      invariant forall j :: 0 <= j < i ==> tokens[j].key in distributing && distributing[tokens[j].key] == Fires(tokens[j])
    {
      distributing := distributing[tokens[i].key := Fires(tokens[i])];
    }
    forall k ensures k in (set x | x in distributing && distributing[x]) <==> k in FlaggedKeys(tokens) {
      if k in FlaggedKeys(tokens) {
        var t :| t in tokens && Fires(t) && t.key == k;
        var j :| 0 <= j < |tokens| && tokens[j] == t;
      }
    }
  }

  method RecordGroup(sizes: map<string, nat>, members: seq<BuyerInput>) returns (more: map<string, nat>)
    ensures forall a :: a in more <==> a in sizes || a in AddressesOf(members)
    ensures forall a :: a in more ==> more[a] == if a in AddressesOf(members) then |members| else sizes[a]
  {
    more := sizes;
    ghost var addresses := AddressesOf(members);
    for m := 0 to |members|
      invariant forall a :: a in more <==> a in sizes || a in addresses[..m]
      invariant forall a :: a in more ==> more[a] == if a in addresses[..m] then |members| else sizes[a]
    {
      assert addresses[..m + 1] == addresses[..m] + [members[m].address];
      more := more[members[m].address := |members|];
    }
    assert addresses[..|members|] == addresses;
  }

  /** The size of each wallet's funder cluster within the cohort. */
  method ClusterSizes(wallets: seq<WalletInput>) returns (sizes: map<string, nat>)
    requires DistinctWallets(wallets)
    ensures forall w :: w in wallets ==>
      w.address in sizes && sizes[w.address] == |Component(CohortGraph(wallets), w.address)|
  {
    var buyers := Map(wallets, BuyerOf);
    CohortAddresses(wallets);
    var r, _ := Collapse.Cluster(buyers);
    ghost var g := CohortGraph(wallets);
    sizes := map[];
    for i := 0 to |r.clusters|
      invariant forall a :: a in sizes ==> sizes[a] == |Component(g, a)|
      invariant forall k, a :: 0 <= k < i && a in AddressSet(r.clusters[k]) ==> a in sizes
    {
      GroupSize(buyers, r, i);
      assert forall a :: a in AddressSet(r.clusters[i]) <==> a in AddressesOf(r.clusters[i].members);
      sizes := RecordGroup(sizes, r.clusters[i].members);
    }
    forall w | w in wallets ensures w.address in sizes {
      InSomeGroup(wallets, w, r);
    }
  }

  lemma InSomeGroup(wallets: seq<WalletInput>, w: WalletInput, r: ClusterResult)
    requires DistinctWallets(wallets) && w in wallets && IsClustering(Map(wallets, BuyerOf), r)
    ensures exists k :: 0 <= k < |r.clusters| && w.address in AddressSet(r.clusters[k])
  {
    var buyers := Map(wallets, BuyerOf);
    var i :| 0 <= i < |wallets| && wallets[i] == w;
    assert buyers[i] in buyers;
    GraphAt(buyers, buyers[i]);
    SameGroupIffLinked(buyers, r, w.address, w.address);
    var c :| c in r.clusters && w.address in AddressSet(c);
    var k :| 0 <= k < |r.clusters| && r.clusters[k] == c;
  }

  lemma GroupSize(buyers: seq<BuyerInput>, r: ClusterResult, i: nat)
    requires DistinctAddresses(buyers) && IsClustering(buyers, r) && i < |r.clusters|
    ensures forall a :: a in AddressSet(r.clusters[i]) ==> |r.clusters[i].members| == |Component(GraphOf(buyers), a)|
  {
    var c, g := r.clusters[i], GraphOf(buyers);
    assert IsGroup(buyers, c);
    LessIsStrictTotal();
    DistinctSize(AddressesOf(c.members));
    var b :| b in g && AddressSet(c) == Component(g, b);
    forall a | a in AddressSet(c) ensures Component(g, a) == AddressSet(c) {
      LinkedIffSameComponent(g, b, a);
    }
  }

  method Concentrations(wallets: seq<WalletInput>) returns (vals: seq<Value>)
    ensures vals == Map(wallets, HerfindahlOf())
  {
    vals := [];
    for i := 0 to |wallets|
      invariant |vals| == i && forall k :: 0 <= k < i ==> vals[k] == HerfindahlOf()(wallets[k])
    {
      var h := ConcentrationRaw(wallets[i].boughtTokens);
      vals := vals + [Known(h)];
    }
  }

  /** One signal, normalised over the cohort. */
  method Normalized(wallets: seq<WalletInput>, ghost f: WalletInput -> Value, vals: seq<Value>) returns (norms: seq<real>)
    requires vals == Map(wallets, f)
    ensures |norms| == |wallets|
    ensures forall k :: 0 <= k < |wallets| ==> norms[k] == Norm(Map(wallets, f), f(wallets[k]))
  {
    norms := RankNormalize(vals);
  }

  method FlaggedShares(wallets: seq<WalletInput>, tokens: seq<TokenInput>) returns (shares: seq<real>)
    requires DistinctKeys(tokens)
    ensures |shares| == |wallets|
    ensures forall k :: 0 <= k < |wallets| ==> shares[k] == FlaggedShare(wallets[k].boughtTokens, FlaggedKeys(tokens))
  {
    var distributing := FindDistributing(tokens);
    shares := [];
    for i := 0 to |wallets|
      invariant |shares| == i
      invariant forall k :: 0 <= k < i ==> shares[k] == FlaggedShare(wallets[k].boughtTokens, FlaggedKeys(tokens))
    {
      var share := DistributionPenalty(wallets[i].boughtTokens, distributing);
      shares := shares + [share];
    }
  }

  method Assemble(wallets: seq<WalletInput>, winRate: seq<real>, pnl: seq<real>, recency: seq<real>, concentration: seq<real>,
                  flaggedShare: seq<real>, clusterSize: map<string, nat>) returns (standings: seq<Standing>)
    requires |winRate| == |pnl| == |recency| == |concentration| == |flaggedShare| == |wallets|
    requires forall w :: w in wallets ==> w.address in clusterSize
    ensures |standings| == |wallets|
    ensures forall k :: 0 <= k < |wallets| ==>
      standings[k] == Standing(winRate[k], pnl[k], recency[k], concentration[k], flaggedShare[k], clusterSize[wallets[k].address])
  {
    standings := [];
    for i := 0 to |wallets|
      invariant |standings| == i
      invariant forall k :: 0 <= k < i ==>
        standings[k] == Standing(winRate[k], pnl[k], recency[k], concentration[k], flaggedShare[k], clusterSize[wallets[k].address])
    {
      standings := standings +
        [Standing(winRate[i], pnl[i], recency[i], concentration[i], flaggedShare[i], clusterSize[wallets[i].address])];
    }
  }

  /** Every wallet's standing in the cohort. */
  method Standings(wallets: seq<WalletInput>, tokens: seq<TokenInput>, ref: real, log1p: real -> real) returns (standings: seq<Standing>)
    requires DistinctWallets(wallets) && DistinctKeys(tokens)
    ensures |standings| == |wallets|
    ensures forall k :: 0 <= k < |wallets| ==> standings[k] == StandingOf(wallets, tokens, ref, log1p, wallets[k])
  {
    var flaggedShare := FlaggedShares(wallets, tokens);
    var clusterSize := ClusterSizes(wallets);
    var winRateNorm := Normalized(wallets, WinRateOf, Map(wallets, WinRateOf));
    var pnlNorm := Normalized(wallets, LogPnLOf(log1p), Map(wallets, LogPnLOf(log1p)));
    var recencyNorm := Normalized(wallets, RecencyOf(ref), Map(wallets, RecencyOf(ref)));
    var concentration := Concentrations(wallets);
    var concentrationNorm := Normalized(wallets, HerfindahlOf(), concentration);
    standings := Assemble(wallets, winRateNorm, pnlNorm, recencyNorm, concentrationNorm, flaggedShare, clusterSize);
    forall k | 0 <= k < |wallets| ensures standings[k] == StandingOf(wallets, tokens, ref, log1p, wallets[k]) {
      assert standings[k] == Standing(winRateNorm[k], pnlNorm[k], recencyNorm[k], concentrationNorm[k], flaggedShare[k],
                                      clusterSize[wallets[k].address]);
    }
  }

  method ScoreRows(wallets: seq<WalletInput>, standings: seq<Standing>) returns (rows: seq<WalletScore>)
    requires |standings| == |wallets|
    ensures |rows| == |wallets| && forall k :: 0 <= k < |rows| ==> rows[k] == Scored(wallets[k], standings[k])
  {
    rows := [];
    for i := 0 to |wallets|
      invariant |rows| == i && forall k :: 0 <= k < i ==> rows[k] == Scored(wallets[k], standings[k])
    {
      rows := rows + [Scored(wallets[i], standings[i])];
    }
  }

  /** The rows come out as the ranking, whatever the order of the inputs. */
  method ScoreWallets(wallets: seq<WalletInput>, tokens: seq<TokenInput>, ref: real, log1p: real -> real) returns (out: seq<WalletScore>)
    requires DistinctWallets(wallets) && DistinctKeys(tokens)
    ensures IsRanking(wallets, tokens, ref, log1p, out)
  {
    var standings := Standings(wallets, tokens, ref, log1p);
    var rows := ScoreRows(wallets, standings);
    RankedIsStrictWeak(ScoreOf, NoRank<WalletScore>(), AddressOf);
    out := SortSlice(rows, Ranked(ScoreOf, NoRank<WalletScore>(), AddressOf));
    RowsAreRows(wallets, tokens, ref, log1p, standings, rows);
    SortedRowsAreStrict(wallets, rows, out);
  }

  lemma RowsAreRows(
    wallets: seq<WalletInput>, tokens: seq<TokenInput>, ref: real, log1p: real -> real, standings: seq<Standing>, rows: seq<WalletScore>)
    requires DistinctWallets(wallets) && |standings| == |wallets| == |rows|
    requires forall k :: 0 <= k < |wallets| ==> standings[k] == StandingOf(wallets, tokens, ref, log1p, wallets[k])
    requires forall k :: 0 <= k < |wallets| ==> rows[k] == Scored(wallets[k], standings[k])
    ensures rows == Map(wallets, RowIn(wallets, tokens, ref, log1p))
    ensures forall k :: 0 <= k < |rows| ==> rows[k].address == wallets[k].address
  {
  }

  lemma SortedRowsAreStrict(wallets: seq<WalletInput>, rows: seq<WalletScore>, out: seq<WalletScore>)
    requires DistinctWallets(wallets) && |rows| == |wallets|
    requires forall i :: 0 <= i < |rows| ==> rows[i].address == wallets[i].address
    requires multiset(out) == multiset(rows)
    requires SortedBy(Ranked(ScoreOf, NoRank<WalletScore>(), AddressOf), out)
    ensures StrictlySortedBy(Outranks, out)
  {
    MapOfPermutation(out, rows, AddressOf);
    PermutationFacts(Map(rows, AddressOf), Map(out, AddressOf));
    var less := Ranked(ScoreOf, NoRank<WalletScore>(), AddressOf);
    forall i, j | 0 <= i < j < |out| ensures Outranks(out[i], out[j]) {
      assert Map(out, AddressOf)[i] != Map(out, AddressOf)[j];
      LessIsTotal(out[i].address, out[j].address);
      assert !less(out[j], out[i]);
      assert ScoreOf(out[i]) == out[i].score && ScoreOf(out[j]) == out[j].score;
      assert AddressOf(out[i]) == out[i].address && AddressOf(out[j]) == out[j].address;
    }
  }
}
