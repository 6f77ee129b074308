/** The wallet ranking and the funder census of a run: one each, whatever the schedule. */
module Cohort {
  import opened Order
  import opened Clusters
  import opened Concentration
  import opened Universe
  import opened Score
  import opened Report
  import Census

  // ---- What a run hands to the ranking ----

  function PnLOf(inp: Inputs, a: string): PnL
  {
    if inp.pnl(a).Some? then inp.pnl(a).value else PnL(0.0, 0.0)
  }

  /** The wallet record, for the funders in the order they happened to arrive. */
  function RecordOf(inp: Inputs, b: BuyerInput): WalletInput
    requires b.address in inp.universe.wallets
  {
    var agg, pnl := inp.universe.wallets[b.address], PnLOf(inp, b.address);
    WalletInput(b.address, agg.label_, pnl.realizedPnLUSD, pnl.winRate, b.funders, b.funderChecked, agg.lastTrade, agg.boughtTokens)
  }

  function WalletAddress(w: WalletInput): string
  {
    w.address
  }

  /** The record is what the seed and the outcomes say of its wallet. */
  ghost predicate IsRecord(inp: Inputs, w: WalletInput)
  {
    && w.address in inp.universe.wallets && w.label_ == inp.universe.wallets[w.address].label_
    && w.lastTradeTime == inp.universe.wallets[w.address].lastTrade && w.boughtTokens == inp.universe.wallets[w.address].boughtTokens
    && (inp.pnl(w.address).Some? ==>
          w.realizedPnLUSD == inp.pnl(w.address).value.realizedPnLUSD && w.winRate == inp.pnl(w.address).value.winRate)
    && (inp.pnl(w.address).None? ==> w.realizedPnLUSD == 0.0 && w.winRate == 0.0)
    && (w.funderChecked <==> FullyChecked(inp, w.address))
    && (set f | f in w.funders :: f.address) == Report.FundersOf(inp, w.address) && NamedInReplies(inp, w.address, w.funders)
  }

  ghost predicate IsCohort(inp: Inputs, wallets: seq<WalletInput>)
  {
    Made(inp, wallets, inp.universe.wallets.Keys)
  }

  /** One record for each wallet done. */
  ghost predicate Made(inp: Inputs, wallets: seq<WalletInput>, done: set<string>)
  {
    && Distinct(Map(wallets, WalletAddress)) && Elems(Map(wallets, WalletAddress)) == done
    && forall w :: w in wallets ==> IsRecord(inp, w)
  }

  /** What the token stage leaves for the ranking: the first row of the flow reply, if there is one. */
  function TokenOf(inp: Inputs, k: string): TokenInput
  {
    var reply := inp.flow(k);
    if reply.None? || |reply.value| == 0 then TokenInput(k, 0.0, 0.0, false)
    else TokenInput(k, reply.value[0].smartTraderNetFlowUSD, reply.value[0].exchangeNetFlowUSD, true)
  }

  ghost predicate HasFlow(inp: Inputs, k: string)
  {
    inp.flow(k).Some? && |inp.flow(k).value| > 0
  }

  /** The token carries the flows its call gave, or says that there are none. */
  ghost predicate CarriesFlow(inp: Inputs, t: TokenInput)
  {
    && (t.flowAvailable <==> HasFlow(inp, t.key))
    && (HasFlow(inp, t.key) ==>
          && t.smartTraderNetFlowUSD == inp.flow(t.key).value[0].smartTraderNetFlowUSD
          && t.exchangeNetFlowUSD == inp.flow(t.key).value[0].exchangeNetFlowUSD)
    && (!HasFlow(inp, t.key) ==> t.smartTraderNetFlowUSD == 0.0 && t.exchangeNetFlowUSD == 0.0)
  }

  function KeyOfToken(t: TokenInput): string
  {
    t.key
  }

  /** One token for each in `keys`, with its flows. */
  ghost predicate TokensListed(inp: Inputs, tokens: seq<TokenInput>, keys: set<string>)
  {
    && DistinctKeys(tokens) && Elems(Map(tokens, KeyOfToken)) == keys
    && forall t :: t in tokens ==> CarriesFlow(inp, t)
  }

  ghost predicate IsTokenList(inp: Inputs, tokens: seq<TokenInput>)
  {
    TokensListed(inp, tokens, inp.universe.tokens.Keys)
  }

  // ---- Any two hand-overs of a run agree ----

  lemma SameRecord(inp: Inputs, v: WalletInput, w: WalletInput)
    requires IsRecord(inp, v) && IsRecord(inp, w) && v.address == w.address
    ensures Strip(v) == Strip(w) && FunderSet(BuyerOf(v)) == FunderSet(BuyerOf(w))
  {
  }

  lemma TokensWithin(inp: Inputs, t1: seq<TokenInput>, t2: seq<TokenInput>)
    requires IsTokenList(inp, t1) && IsTokenList(inp, t2)
    ensures Distinct(t1) && Elems(t1) <= Elems(t2)
  {
    forall t | t in t1 ensures t in t2 {
      var i :| 0 <= i < |t1| && t1[i] == t;
      assert Map(t1, KeyOfToken)[i] in Elems(Map(t1, KeyOfToken));
      assert t.key in Elems(Map(t2, KeyOfToken));
      var j :| 0 <= j < |t2| && t2[j].key == t.key;
      assert t2[j] in t2 && CarriesFlow(inp, t2[j]) && CarriesFlow(inp, t);
      assert t2[j] == t;
    }
  }

  lemma ShapesWithin(inp: Inputs, w1: seq<WalletInput>, w2: seq<WalletInput>)
    requires IsCohort(inp, w1) && IsCohort(inp, w2)
    ensures Elems(Map(w1, Shape)) <= Elems(Map(w2, Shape))
  {
    forall p | p in Elems(Map(w1, Shape)) ensures p in Elems(Map(w2, Shape)) {
      var i :| 0 <= i < |w1| && Shape(w1[i]) == p;
      assert w1[i] in w1 && Map(w1, WalletAddress)[i] in Elems(Map(w1, WalletAddress));
      assert w1[i].address in Elems(Map(w2, WalletAddress));
      var j :| 0 <= j < |w2| && w2[j].address == w1[i].address;
      assert w2[j] in w2 && IsRecord(inp, w1[i]) && IsRecord(inp, w2[j]);
      SameRecord(inp, w1[i], w2[j]);
      assert Map(w2, Shape)[j] == p;
    }
  }

  lemma ShapesDistinct(inp: Inputs, wallets: seq<WalletInput>)
    requires IsCohort(inp, wallets)
    ensures Distinct(Map(wallets, Shape)) && DistinctWallets(wallets)
  {
    forall i, j | 0 <= i < j < |wallets|
      ensures Map(wallets, Shape)[i] != Map(wallets, Shape)[j] && wallets[i].address != wallets[j].address
    {
      assert Map(wallets, WalletAddress)[i] != Map(wallets, WalletAddress)[j];
      assert Strip(wallets[i]).address == wallets[i].address && Strip(wallets[j]).address == wallets[j].address;
    }
  }

  lemma CohortsAgree(inp: Inputs, w1: seq<WalletInput>, w2: seq<WalletInput>)
    requires IsCohort(inp, w1) && IsCohort(inp, w2)
    ensures SameWallets(w1, w2)
  {
    ShapesWithin(inp, w1, w2);
    ShapesWithin(inp, w2, w1);
    ShapesDistinct(inp, w1);
    ShapesDistinct(inp, w2);
    SameElementsPermuted(Map(w1, Shape), Map(w2, Shape));
  }

  /** One ranking per run: whatever order the maps were walked in and the replies came in. */
  lemma OneRankingPerRun(
    inp: Inputs, ref: real, log1p: real -> real, w1: seq<WalletInput>, w2: seq<WalletInput>,
    t1: seq<TokenInput>, t2: seq<TokenInput>, out1: seq<WalletScore>, out2: seq<WalletScore>)
    requires IsCohort(inp, w1) && IsCohort(inp, w2) && IsTokenList(inp, t1) && IsTokenList(inp, t2)
    requires DistinctWallets(w1) && DistinctWallets(w2)
    requires IsRanking(w1, t1, ref, log1p, out1) && IsRanking(w2, t2, ref, log1p, out2)
    ensures out1 == out2
  {
    CohortsAgree(inp, w1, w2);
    TokensWithin(inp, t1, t2);
    TokensWithin(inp, t2, t1);
    SameElementsPermuted(t1, t2);
    RankingIsDetermined(w1, w2, t1, t2, ref, log1p, out1, out2);
  }

  function FundersIn(p: (WalletInput, set<string>)): set<string>
  {
    p.1
  }

  /** One census per run, up to labels. */
  lemma OneCensusPerRun(
    inp: Inputs, w1: seq<WalletInput>, w2: seq<WalletInput>, c1: Census.FunderCensus, c2: Census.FunderCensus)
    requires IsCohort(inp, w1) && IsCohort(inp, w2)
    requires Census.IsCensus(Map(w1, BuyerOf), c1) && Census.IsCensus(Map(w2, BuyerOf), c2)
    ensures c1.distinctFunders == c2.distinctFunders && c1.sharedFunders == c2.sharedFunders
    ensures Map(c1.topFunders, Census.RowOf) == Map(c2.topFunders, Census.RowOf)
  {
    var b1, b2 := Map(w1, BuyerOf), Map(w2, BuyerOf);
    CohortsAgree(inp, w1, w2);
    MapOfPermutation(Map(w1, Shape), Map(w2, Shape), FundersIn);
    assert Map(Map(w1, Shape), FundersIn) == Map(b1, Census.FundersOf) && Map(Map(w2, Shape), FundersIn) == Map(b2, Census.FundersOf);
    Census.CensusIsDetermined(b1, b2, c1, c2);
  }

  // ---- The hand-over ----

  lemma RecordIsRecord(inp: Inputs, b: BuyerInput)
    requires b.address in inp.universe.wallets && Carries(inp, b)
    ensures IsRecord(inp, RecordOf(inp, b)) && RecordOf(inp, b).address == b.address
  {
    assert FunderSet(BuyerOf(RecordOf(inp, b))) == FunderSet(b);
  }

  lemma MadeOneMore(inp: Inputs, wallets: seq<WalletInput>, done: set<string>, w: WalletInput)
    requires Made(inp, wallets, done) && IsRecord(inp, w) && w.address !in done
    ensures Made(inp, wallets + [w], done + {w.address})
  {
    AppendNew(Map(wallets, WalletAddress), w.address);
    assert Map(wallets + [w], WalletAddress) == Map(wallets, WalletAddress) + [w.address];
    forall v | v in wallets + [w] ensures IsRecord(inp, v) {
      assert v in wallets || v == w;
    }
  }

  method MakeCohort(inp: Inputs, buyers: map<string, BuyerInput>) returns (wallets: seq<WalletInput>)
    requires buyers.Keys == inp.universe.wallets.Keys
    requires forall a :: a in buyers ==> buyers[a].address == a && Carries(inp, buyers[a])
    ensures Made(inp, wallets, buyers.Keys)
  {
    wallets := [];
    var todo := buyers.Keys;
    ghost var done: set<string> := {};
    while todo != {}
      invariant todo !! done && todo + done == buyers.Keys
      invariant Made(inp, wallets, done)
    {
      var a :| a in todo;
      wallets := AddRecord(inp, wallets, done, buyers[a]);
      done := done + {a};
      todo := todo - {a};
    }
  }

  method AddRecord(inp: Inputs, made: seq<WalletInput>, ghost done: set<string>, b: BuyerInput) returns (wallets: seq<WalletInput>)
    requires b.address in inp.universe.wallets && Carries(inp, b)
    requires Made(inp, made, done) && b.address !in done
    ensures Made(inp, wallets, done + {b.address})
  {
    RecordIsRecord(inp, b);
    MadeOneMore(inp, made, done, RecordOf(inp, b));
    wallets := made + [RecordOf(inp, b)];
  }

  lemma TokenListed(inp: Inputs, tokens: seq<TokenInput>, keys: set<string>, k: string)
    requires TokensListed(inp, tokens, keys) && k !in keys
    ensures TokensListed(inp, tokens + [TokenOf(inp, k)], keys + {k})
  {
    var more := tokens + [TokenOf(inp, k)];
    assert Map(more, KeyOfToken) == Map(tokens, KeyOfToken) + [k];
    forall i | 0 <= i < |tokens| ensures tokens[i].key != k {
      assert Map(tokens, KeyOfToken)[i] in Elems(Map(tokens, KeyOfToken));
    }
    forall t | t in more ensures CarriesFlow(inp, t) {
      assert t in tokens || t == TokenOf(inp, k);
    }
  }

  method MakeTokens(inp: Inputs) returns (tokens: seq<TokenInput>)
    ensures IsTokenList(inp, tokens)
  {
    tokens := [];
    var todo := inp.universe.tokens.Keys;
    ghost var done: set<string> := {};
    while todo != {}
      invariant todo !! done && todo + done == inp.universe.tokens.Keys
      invariant TokensListed(inp, tokens, done)
    {
      var k :| k in todo;
      TokenListed(inp, tokens, done, k);
      tokens := tokens + [TokenOf(inp, k)];
      done := done + {k};
      todo := todo - {k};
    }
  }

  /** The ranking and the census of a run. */
  method RankRun(inp: Inputs, ref: real, log1p: real -> real)
    returns (crashed: bool, wallets: seq<WalletInput>, tokens: seq<TokenInput>, ranking: seq<WalletScore>, census: Census.FunderCensus)
    ensures crashed <==> !ItemsNameWallets(inp.universe)
    ensures !crashed ==> IsCohort(inp, wallets) && IsTokenList(inp, tokens) && DistinctWallets(wallets)
    ensures !crashed ==> IsRanking(wallets, tokens, ref, log1p, ranking) && Census.IsCensus(Map(wallets, BuyerOf), census)
  {
    var buyers;
    crashed, buyers := MakeWallets(inp);
    wallets, tokens, ranking, census := [], [], [], Census.FunderCensus(0, 0, []);
    if crashed {
      return;
    }
    wallets := MakeCohort(inp, buyers);
    tokens := MakeTokens(inp);
    ShapesDistinct(inp, wallets);
    ranking := ScoreWallets(wallets, tokens, ref, log1p);
    census := Census.ComputeFunderCensus(Map(wallets, BuyerOf));
  }
}
