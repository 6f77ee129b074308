/** The dry-run call plan against the requests a run actually makes. */
module Plan {
  import opened Order
  import opened Concentration
  import opened Verdict
  import opened Universe
  import opened Calls
  import opened Move
  import opened Report
  import opened Outcomes

  datatype Endpoint =
    | SmartMoneyDexTrades
    | ProfilerPnLSummary
    | ProfilerRelatedWallets
    | TGMFlowIntelligence
    | TGMTokenInformation
    | TGMTokenOHLCV

  datatype PlanItem = PlanItem(endpoint: Endpoint, total: nat, cached: nat, newCalls: int, costPerCall: nat, upperBound: bool)
  {
    function NewCreditsEstimate(): int
    {
      newCalls * costPerCall
    }

    function WithCached(n: nat): PlanItem
    {
      this.(cached := n, newCalls := total - n)
    }
  }

  function PlanItemFromCall(endpoint: Endpoint, total: nat, cacheHit: bool, cost: nat): PlanItem
  {
    var cached := if cacheHit then 1 else 0;
    PlanItem(endpoint, total, cached, total - cached, cost, false)
  }

  function EndpointOf(r: Request): Endpoint
  {
    match r
    case DexTrades => SmartMoneyDexTrades
    case PnLSummary(_) => ProfilerPnLSummary
    case RelatedWallets(_, _) => ProfilerRelatedWallets
    case FlowIntelligence(_, _) => TGMFlowIntelligence
    case TokenInformation(_, _) => TGMTokenInformation
    case TokenOHLCV(_, _) => TGMTokenOHLCV
  }

  // ---- What smart money bought ----

  /** The fills of token `k`, in seed order. */
  function FillsOf(seed: seq<DexTrade>, k: string): seq<Buy>
  {
    if |seed| == 0 then []
    else
      var tr := Last(seed);
      FillsOf(DropLast(seed), k) +
      (if tr.boughtAddress != "" && TokenKey(tr.chain, tr.boughtAddress) == k then [Buy(tr.tradeValueUSD, tr.boughtAmount)] else [])
  }

  /** One trade is a fill of its bought side, for its value and the amount bought. */
  lemma OneFill(tr: DexTrade, k: string)
    ensures tr.boughtAddress != "" && k == tr.chain + ":" + tr.boughtAddress ==> FillsOf([tr], k) == [Buy(tr.tradeValueUSD, tr.boughtAmount)]
    ensures !(tr.boughtAddress != "" && k == tr.chain + ":" + tr.boughtAddress) ==> FillsOf([tr], k) == []
  {
    assert DropLast([tr]) == [] && Last([tr]) == tr;
  }

  /** Fills add up over any split of the seed. */
  lemma {:induction false} FillsJoin(x: seq<DexTrade>, y: seq<DexTrade>, k: string)
    ensures FillsOf(x + y, k) == FillsOf(x, k) + FillsOf(y, k)
    decreases |y|
  {
    if |y| == 0 {
      assert x + y == x;
    } else {
      assert DropLast(x + y) == x + DropLast(y) && Last(x + y) == Last(y);
      FillsJoin(x, DropLast(y), k);
    }
  }

  /** The `i`-th trade of the seed bought the token. */
  ghost predicate BuysAt(seed: seq<DexTrade>, i: int, k: string)
  {
    0 <= i < |seed| && seed[i].boughtAddress != "" && k == seed[i].chain + ":" + seed[i].boughtAddress
  }

  ghost predicate Purchased(seed: seq<DexTrade>, k: string)
  {
    exists i :: BuysAt(seed, i, k)
  }

  lemma {:induction false} FillsIffPurchased(seed: seq<DexTrade>, k: string)
    ensures |FillsOf(seed, k)| > 0 <==> Purchased(seed, k)
    decreases |seed|
  {
    if |seed| > 0 {
      var last := |seed| - 1;
      FillsIffPurchased(DropLast(seed), k);
      assert forall i :: 0 <= i < last ==> (BuysAt(DropLast(seed), i, k) <==> BuysAt(seed, i, k));
      assert Purchased(seed, k) <==> Purchased(DropLast(seed), k) || BuysAt(seed, last, k);
    }
  }

  function BuysUnder(buys: map<string, seq<Buy>>, k: string): seq<Buy>
  {
    if k in buys then buys[k] else []
  }

  method SeedBuys(seed: seq<DexTrade>) returns (buys: map<string, seq<Buy>>)
    ensures forall k :: BuysUnder(buys, k) == FillsOf(seed, k)
  {
    buys := map[];
    for i := 0 to |seed|
      invariant forall k :: BuysUnder(buys, k) == FillsOf(seed[..i], k)
    {
      var tr := seed[i];
      assert DropLast(seed[..i + 1]) == seed[..i];
      if tr.boughtAddress != "" {
        var k := TokenKey(tr.chain, tr.boughtAddress);
        buys := buys[k := BuysUnder(buys, k) + [Buy(tr.tradeValueUSD, tr.boughtAmount)]];
      }
    }
    assert seed[..|seed|] == seed;
  }

  // ---- The requests of a run, stage by stage ----

  function PnLCalls(wallets: set<string>): set<Request>
  {
    set a | a in wallets :: PnLSummary(a)
  }

  function RelatedCallsOf(a: string, chains: set<string>): set<Request>
  {
    set c | c in chains :: RelatedWallets(a, c)
  }

  function RelatedCalls(u: Universe, wallets: set<string>): set<Request>
  {
    set a, c | a in wallets && c in ChainsIn(u, a) :: RelatedWallets(a, c)
  }

  /** What a token stage sends for a token. */
  function TokenRequest(stage: Endpoint, chain: string, address: string): Request
  {
    match stage
    case TGMFlowIntelligence => FlowIntelligence(chain, address)
    case TGMTokenInformation => TokenInformation(chain, address)
    case _ => TokenOHLCV(chain, address)
  }

  function TokenCall(u: Universe, k: string, stage: Endpoint): Request
    requires k in u.tokens
  {
    TokenRequest(stage, u.tokens[k].chain, u.tokens[k].address)
  }

  function TokenCalls(u: Universe, keys: set<string>, stage: Endpoint): set<Request>
  {
    set k | k in keys && k in u.tokens :: TokenCall(u, k, stage)
  }

  /** The tokens that could be priced: those the seed shows a purchase of. */
  function Priceable(u: Universe, seed: seq<DexTrade>): set<string>
  {
    set k | k in u.tokens && |FillsOf(seed, k)| > 0
  }

  /** The tokens a run does price: they carry a verdict and have a purchase. */
  function Priced(seed: seq<DexTrade>, rows: seq<TokenReport>): set<string>
  {
    set r | r in rows && r.verdict != Weak && |FillsOf(seed, r.key)| > 0 :: r.key
  }

  function RunCalls(u: Universe, seed: seq<DexTrade>, rows: seq<TokenReport>): set<Request>
  {
    {DexTrades} + PnLCalls(u.wallets.Keys) + RelatedCalls(u, u.wallets.Keys) + TokenCalls(u, u.tokens.Keys, TGMFlowIntelligence) +
    TokenCalls(u, u.tokens.Keys, TGMTokenInformation) + TokenCalls(u, Priced(seed, rows), TGMTokenOHLCV)
  }

  // ---- The plan ----

  datatype Tally = Tally(total: nat, cached: nat)

  /** `calls` makes each request in `asked` once. */
  ghost predicate AsksOnce(calls: seq<Request>, asked: set<Request>)
  {
    Distinct(calls) && Elems(calls) == asked
  }

  lemma AskOneMore(calls: seq<Request>, asked: set<Request>, r: Request)
    requires AsksOnce(calls, asked) && r !in asked
    ensures AsksOnce(calls + [r], asked + {r})
  {
    AppendNew(calls, r);
  }

  ghost function Hits(calls: seq<Request>, cache: set<Request>): nat
  {
    if |calls| == 0 then 0 else Hits(DropLast(calls), cache) + (if Last(calls) in cache then 1 else 0)
  }

  ghost predicate Tallies(t: Tally, calls: seq<Request>, cache: set<Request>)
  {
    t.total == |calls| && t.cached == Hits(calls, cache)
  }

  function Tick(t: Tally, r: Request, cache: set<Request>): Tally
  {
    Tally(t.total + 1, if r in cache then t.cached + 1 else t.cached)
  }

  lemma TickTallies(t: Tally, calls: seq<Request>, asked: set<Request>, cache: set<Request>, r: Request)
    requires AsksOnce(calls, asked) && Tallies(t, calls, cache) && r !in asked
    ensures AsksOnce(calls + [r], asked + {r}) && Tallies(Tick(t, r, cache), calls + [r], cache)
  {
    AskOneMore(calls, asked, r);
    assert DropLast(calls + [r]) == calls;
  }

  lemma {:induction false} HitsAreShared(calls: seq<Request>, asked: set<Request>, cache: set<Request>)
    requires AsksOnce(calls, asked)
    ensures |calls| == |asked| && Hits(calls, cache) == |asked * cache|
    decreases |calls|
  {
    DistinctSize(calls);
    if |calls| == 0 {
      assert asked * cache == {};
    } else {
      var rest, r := DropLast(calls), Last(calls);
      LastIsNew(calls);
      HitsAreShared(rest, Elems(rest), cache);
      HitOneMore(Elems(rest), r, cache);
    }
  }

  lemma HitOneMore(asked: set<Request>, r: Request, cache: set<Request>)
    requires r !in asked
    ensures |(asked + {r}) * cache| == |asked * cache| + (if r in cache then 1 else 0)
  {
    assert (asked + {r}) * cache == if r in cache then asked * cache + {r} else asked * cache;
  }

  lemma LastIsNew(calls: seq<Request>)
    requires Distinct(calls) && |calls| > 0
    ensures Last(calls) !in Elems(DropLast(calls)) && Elems(calls) == Elems(DropLast(calls)) + {Last(calls)}
    ensures Distinct(DropLast(calls))
  {
    assert calls == DropLast(calls) + [Last(calls)];
    assert forall i :: 0 <= i < |calls| - 1 ==> DropLast(calls)[i] == calls[i] != Last(calls);
  }

  /** The item prices exactly the requests in `calls`: how many, how many are cached, how many are new. */
  ghost predicate Prices(item: PlanItem, e: Endpoint, calls: set<Request>, cache: set<Request>, cost: Endpoint -> nat)
  {
    && item.endpoint == e && item.costPerCall == cost(e)
    && item.total == |calls| && item.cached == |calls * cache| && item.newCalls == |calls - cache|
  }

  lemma TallyPrices(t: Tally, e: Endpoint, calls: seq<Request>, asked: set<Request>, cache: set<Request>, cost: Endpoint -> nat)
    requires AsksOnce(calls, asked) && Tallies(t, calls, cache)
    ensures Prices(PlanItemFromCall(e, t.total, false, cost(e)).WithCached(t.cached), e, asked, cache, cost)
  {
    HitsAreShared(calls, asked, cache);
    assert asked == asked * cache + (asked - cache);
    assert |asked| == |asked * cache| + |asked - cache|;
  }

  lemma NextPnLCall(done: set<string>, a: string)
    requires a !in done
    ensures PnLSummary(a) !in PnLCalls(done) && PnLCalls(done + {a}) == PnLCalls(done) + {PnLSummary(a)}
  {
  }

  method PnLItem(u: Universe, cache: set<Request>, cost: Endpoint -> nat) returns (item: PlanItem)
    ensures Prices(item, ProfilerPnLSummary, PnLCalls(u.wallets.Keys), cache, cost) && !item.upperBound
  {
    var t := Tally(0, 0);
    var todo := u.wallets.Keys;
    ghost var done, calls := {}, [];
    while todo != {}
      invariant todo !! done && todo + done == u.wallets.Keys
      invariant AsksOnce(calls, PnLCalls(done)) && Tallies(t, calls, cache)
    {
      var a :| a in todo;
      NextPnLCall(done, a);
      TickTallies(t, calls, PnLCalls(done), cache, PnLSummary(a));
      t := Tick(t, PnLSummary(a), cache);
      calls := calls + [PnLSummary(a)];
      done, todo := done + {a}, todo - {a};
    }
    TallyPrices(t, ProfilerPnLSummary, calls, PnLCalls(u.wallets.Keys), cache, cost);
    item := PlanItemFromCall(ProfilerPnLSummary, t.total, false, cost(ProfilerPnLSummary)).WithCached(t.cached);
  }

  lemma NextChainCall(before: set<Request>, a: string, done: set<string>, c: string)
    requires c !in done && RelatedWallets(a, c) !in before
    ensures RelatedWallets(a, c) !in before + RelatedCallsOf(a, done)
    ensures before + RelatedCallsOf(a, done + {c}) == before + RelatedCallsOf(a, done) + {RelatedWallets(a, c)}
  {
  }

  lemma NextRelatedCalls(u: Universe, done: set<string>, a: string)
    requires a !in done
    ensures forall c :: RelatedWallets(a, c) !in RelatedCalls(u, done)
    ensures RelatedCalls(u, done + {a}) == RelatedCalls(u, done) + RelatedCallsOf(a, ChainsIn(u, a))
  {
  }

  /** One wallet's chains, after the calls of the wallets before it. */
  method TallyChains(a: string, chains: set<string>, cache: set<Request>, t0: Tally, ghost calls0: seq<Request>, ghost before: set<Request>)
    returns (t: Tally, ghost calls: seq<Request>)
    requires AsksOnce(calls0, before) && Tallies(t0, calls0, cache) && forall c :: RelatedWallets(a, c) !in before
    ensures AsksOnce(calls, before + RelatedCallsOf(a, chains)) && Tallies(t, calls, cache)
  {
    t, calls := t0, calls0;
    var todo := chains;
    ghost var done := {};
    assert before + RelatedCallsOf(a, done) == before;
    while todo != {}
      invariant todo !! done && todo + done == chains
      invariant AsksOnce(calls, before + RelatedCallsOf(a, done)) && Tallies(t, calls, cache)
    {
      var c :| c in todo;
      NextChainCall(before, a, done, c);
      TickTallies(t, calls, before + RelatedCallsOf(a, done), cache, RelatedWallets(a, c));
      t := Tick(t, RelatedWallets(a, c), cache);
      calls := calls + [RelatedWallets(a, c)];
      done, todo := done + {c}, todo - {c};
    }
  }

  method RelatedItem(u: Universe, cache: set<Request>, cost: Endpoint -> nat) returns (item: PlanItem)
    ensures Prices(item, ProfilerRelatedWallets, RelatedCalls(u, u.wallets.Keys), cache, cost) && !item.upperBound
  {
    var t := Tally(0, 0);
    var todo := u.wallets.Keys;
    ghost var done, calls := {}, [];
    while todo != {}
      invariant todo !! done && todo + done == u.wallets.Keys
      invariant AsksOnce(calls, RelatedCalls(u, done)) && Tallies(t, calls, cache)
    {
      var a :| a in todo;
      NextRelatedCalls(u, done, a);
      t, calls := TallyChains(a, u.wallets[a].chains, cache, t, calls, RelatedCalls(u, done));
      done, todo := done + {a}, todo - {a};
    }
    TallyPrices(t, ProfilerRelatedWallets, calls, RelatedCalls(u, u.wallets.Keys), cache, cost);
    item := PlanItemFromCall(ProfilerRelatedWallets, t.total, false, cost(ProfilerRelatedWallets)).WithCached(t.cached);
  }

  /** Tallies the tokens in `keys`, walked in any order. */
  method TallyTokens(u: Universe, keys: set<string>, stage: Endpoint, cache: set<Request>) returns (t: Tally, ghost calls: seq<Request>)
    requires Consistent(u) && keys <= u.tokens.Keys
    ensures AsksOnce(calls, TokenCalls(u, keys, stage)) && Tallies(t, calls, cache)
  {
    t, calls := Tally(0, 0), [];
    var todo := keys;
    ghost var done := {};
    while todo != {}
      invariant todo !! done && todo + done == keys
      invariant AsksOnce(calls, TokenCalls(u, done, stage)) && Tallies(t, calls, cache)
    {
      var k :| k in todo;
      TickTallies(t, calls, TokenCalls(u, done, stage), cache, TokenCall(u, k, stage));
      t := Tick(t, TokenCall(u, k, stage), cache);
      calls := calls + [TokenCall(u, k, stage)];
      done, todo := done + {k}, todo - {k};
    }
  }

  method TokenItem(u: Universe, stage: Endpoint, cache: set<Request>, cost: Endpoint -> nat) returns (item: PlanItem)
    requires Consistent(u)
    ensures Prices(item, stage, TokenCalls(u, u.tokens.Keys, stage), cache, cost) && !item.upperBound
  {
    var t, calls := TallyTokens(u, u.tokens.Keys, stage, cache);
    TallyPrices(t, stage, calls, TokenCalls(u, u.tokens.Keys, stage), cache, cost);
    item := PlanItemFromCall(stage, t.total, false, cost(stage)).WithCached(t.cached);
  }

  /** Verdicts need the enrichment, so every token with a purchase is planned. */
  method MoveItem(u: Universe, seed: seq<DexTrade>, cache: set<Request>, cost: Endpoint -> nat) returns (item: PlanItem)
    requires Consistent(u)
    ensures Prices(item, TGMTokenOHLCV, TokenCalls(u, Priceable(u, seed), TGMTokenOHLCV), cache, cost) && item.upperBound
  {
    var buys := SeedBuys(seed);
    var bought := set k | k in u.tokens && |BuysUnder(buys, k)| > 0;
    assert bought == Priceable(u, seed);
    var t, calls := TallyTokens(u, bought, TGMTokenOHLCV, cache);
    TallyPrices(t, TGMTokenOHLCV, calls, TokenCalls(u, bought, TGMTokenOHLCV), cache, cost);
    item := PlanItem(TGMTokenOHLCV, t.total, t.cached, t.total - t.cached, cost(TGMTokenOHLCV), true);
  }

  /** One item per stage, each pricing the set of requests that stage would make. */
  ghost predicate PlanFor(u: Universe, seed: seq<DexTrade>, cache: set<Request>, cost: Endpoint -> nat, items: seq<PlanItem>)
  {
    && |items| == 6
    && Prices(items[0], SmartMoneyDexTrades, {DexTrades}, cache, cost)
    && Prices(items[1], ProfilerPnLSummary, PnLCalls(u.wallets.Keys), cache, cost)
    && Prices(items[2], ProfilerRelatedWallets, RelatedCalls(u, u.wallets.Keys), cache, cost)
    && Prices(items[3], TGMFlowIntelligence, TokenCalls(u, u.tokens.Keys, TGMFlowIntelligence), cache, cost)
    && Prices(items[4], TGMTokenInformation, TokenCalls(u, u.tokens.Keys, TGMTokenInformation), cache, cost)
    && Prices(items[5], TGMTokenOHLCV, TokenCalls(u, Priceable(u, seed), TGMTokenOHLCV), cache, cost)
    && forall i :: 0 <= i < 6 ==> (items[i].upperBound <==> i == 5)
  }

  method LimitedUniverse(seed: seq<DexTrade>, max: int) returns (u: Universe)
    ensures IsLimited(Derived(seed), max, u) && Consistent(u)
  {
    var all := DeriveUniverse(seed);
    u := LimitUniverse(all, max);
    DerivedMeans(seed);
    LimitKeepsConsistent(all, max, u);
  }

  lemma SeedLine(cache: set<Request>, cost: Endpoint -> nat)
    requires DexTrades in cache
    ensures Prices(PlanItemFromCall(SmartMoneyDexTrades, 1, true, cost(SmartMoneyDexTrades)), SmartMoneyDexTrades, {DexTrades}, cache, cost)
  {
    assert {DexTrades} * cache == {DexTrades} && {DexTrades} - cache == {};
  }

  lemma AllLines(
    u: Universe, seed: seq<DexTrade>, cache: set<Request>, cost: Endpoint -> nat,
    first: PlanItem, pnl: PlanItem, related: PlanItem, flow: PlanItem, info: PlanItem, ohlcv: PlanItem)
    requires Prices(first, SmartMoneyDexTrades, {DexTrades}, cache, cost) && !first.upperBound
    requires Prices(pnl, ProfilerPnLSummary, PnLCalls(u.wallets.Keys), cache, cost) && !pnl.upperBound
    requires Prices(related, ProfilerRelatedWallets, RelatedCalls(u, u.wallets.Keys), cache, cost) && !related.upperBound
    requires Prices(flow, TGMFlowIntelligence, TokenCalls(u, u.tokens.Keys, TGMFlowIntelligence), cache, cost) && !flow.upperBound
    requires Prices(info, TGMTokenInformation, TokenCalls(u, u.tokens.Keys, TGMTokenInformation), cache, cost) && !info.upperBound
    requires Prices(ohlcv, TGMTokenOHLCV, TokenCalls(u, Priceable(u, seed), TGMTokenOHLCV), cache, cost) && ohlcv.upperBound
    ensures PlanFor(u, seed, cache, cost, [first] + [pnl, related, flow, info, ohlcv])
  {
    var items := [first] + [pnl, related, flow, info, ohlcv];
    assert items[0] == first && items[1] == pnl && items[2] == related && items[3] == flow && items[4] == info && items[5] == ohlcv;
  }

  /** Without a cached seed only its own line can be planned; `seed` is the cached body otherwise. */
  method MakePlan(seed: seq<DexTrade>, max: int, cache: set<Request>, cost: Endpoint -> nat)
    returns (items: seq<PlanItem>, ghost u: Universe)
    ensures DexTrades !in cache ==> items == [PlanItem(SmartMoneyDexTrades, 1, 0, 1, cost(SmartMoneyDexTrades), false)]
    ensures DexTrades in cache ==> IsLimited(Derived(seed), max, u) && PlanFor(u, seed, cache, cost, items)
  {
    var hit := DexTrades in cache;
    items := [PlanItemFromCall(SmartMoneyDexTrades, 1, hit, cost(SmartMoneyDexTrades))];
    if !hit {
      u := Universe(map[], map[]);
      return;
    }
    ghost var first := items[0];
    SeedLine(cache, cost);
    var v := LimitedUniverse(seed, max);
    u := v;
    var pnl := PnLItem(v, cache, cost);
    var related := RelatedItem(v, cache, cost);
    var flow := TokenItem(v, TGMFlowIntelligence, cache, cost);
    var info := TokenItem(v, TGMTokenInformation, cache, cost);
    var ohlcv := MoveItem(v, seed, cache, cost);
    AllLines(v, seed, cache, cost, first, pnl, related, flow, info, ohlcv);
    items := items + [pnl, related, flow, info, ohlcv];
  }

  // ---- The run ----

  method AskPnL(u: Universe) returns (calls: seq<Request>)
    ensures AsksOnce(calls, PnLCalls(u.wallets.Keys))
  {
    calls := [];
    var todo := u.wallets.Keys;
    ghost var done := {};
    while todo != {}
      invariant todo !! done && todo + done == u.wallets.Keys
      invariant AsksOnce(calls, PnLCalls(done))
    {
      var addr :| addr in todo;
      NextPnLCall(done, addr);
      AskOneMore(calls, PnLCalls(done), PnLSummary(addr));
      calls := calls + [PnLSummary(addr)];
      done, todo := done + {addr}, todo - {addr};
    }
  }

  function RelatedRequest(item: string): Request
  {
    var (addr, chain) := SplitWalletChainKey(item);
    RelatedWallets(addr, chain)
  }

  function ItemCalls(items: set<string>): set<Request>
  {
    set i | i in items :: RelatedRequest(i)
  }

  lemma ItemsAreCalls(u: Universe)
    requires NoBarInAddresses(u)
    ensures ItemCalls(RelatedItems(u)) == RelatedCalls(u, u.wallets.Keys)
    ensures forall i, j :: i in RelatedItems(u) && j in RelatedItems(u) && RelatedRequest(i) == RelatedRequest(j) ==> i == j
  {
    forall a, c | a in u.wallets && c in u.wallets[a].chains
      ensures WalletChainKey(a, c) in RelatedItems(u) && RelatedRequest(WalletChainKey(a, c)) == RelatedWallets(a, c)
    {
      SplitUndoesJoinIff(a, c);
    }
    forall r ensures r in ItemCalls(RelatedItems(u)) <==> r in RelatedCalls(u, u.wallets.Keys) {
      if r in RelatedCalls(u, u.wallets.Keys) {
        var a, c :| a in u.wallets && c in ChainsIn(u, a) && r == RelatedWallets(a, c);
        assert RelatedRequest(WalletChainKey(a, c)) == r;
      }
    }
  }

  /** The workers ask about exactly the wallets and chains that traded if and only if no wallet has a bar in its address. */
  lemma ItemsAreCallsIff(u: Universe)
    requires forall a :: a in u.wallets ==> u.wallets[a].chains != {}
    ensures ItemCalls(RelatedItems(u)) == RelatedCalls(u, u.wallets.Keys) <==> NoBarInAddresses(u)
  {
    if NoBarInAddresses(u) {
      ItemsAreCalls(u);
    } else {
      var a :| a in u.wallets && '|' in a;
      var c :| c in u.wallets[a].chains;
      assert RelatedWallets(a, c) in RelatedCalls(u, u.wallets.Keys);
      forall i | i in RelatedItems(u) ensures RelatedRequest(i) != RelatedWallets(a, c) {
        ItemHasBar(u, i);
        JoinUndoesSplit(i);
      }
    }
  }

  function PairsOf(u: Universe): set<(string, string)>
  {
    set a, c | a in u.wallets && c in u.wallets[a].chains :: (a, c)
  }

  function PairCall(p: (string, string)): Request
  {
    RelatedRequest(WalletChainKey(p.0, p.1))
  }

  function PairCalls(pairs: set<(string, string)>): set<Request>
  {
    set p | p in pairs :: PairCall(p)
  }

  lemma PairsAreItems(u: Universe)
    ensures PairCalls(PairsOf(u)) == ItemCalls(RelatedItems(u))
  {
    forall r | r in PairCalls(PairsOf(u)) ensures r in ItemCalls(RelatedItems(u)) {
      var p :| p in PairsOf(u) && r == PairCall(p);
      assert WalletChainKey(p.0, p.1) in RelatedItems(u);
    }
    forall r | r in ItemCalls(RelatedItems(u)) ensures r in PairCalls(PairsOf(u)) {
      var i :| i in RelatedItems(u) && r == RelatedRequest(i);
      var a, c :| a in u.wallets && c in u.wallets[a].chains && i == WalletChainKey(a, c);
      assert (a, c) in PairsOf(u) && r == PairCall((a, c));
    }
  }

  /** One call per pair done, each a different one when no address has a bar. */
  ghost predicate PairsAsked(u: Universe, calls: seq<Request>, done: set<(string, string)>)
  {
    && |calls| == |done| && Elems(calls) == PairCalls(done)
    && (NoBarInAddresses(u) ==> Distinct(calls))
  }

  lemma NextPairCall(u: Universe, calls: seq<Request>, done: set<(string, string)>, p: (string, string))
    requires PairsAsked(u, calls, done) && done <= PairsOf(u) && p in PairsOf(u) && p !in done
    ensures PairsAsked(u, calls + [PairCall(p)], done + {p})
  {
    assert PairCalls(done + {p}) == PairCalls(done) + {PairCall(p)};
    assert Elems(calls + [PairCall(p)]) == Elems(calls) + {PairCall(p)};
    if NoBarInAddresses(u) {
      PairCallIsNew(u, done, p);
      AppendNew(calls, PairCall(p));
    }
  }

  lemma PairCallIsNew(u: Universe, done: set<(string, string)>, p: (string, string))
    requires NoBarInAddresses(u) && done <= PairsOf(u) && p in PairsOf(u) && p !in done
    ensures PairCall(p) !in PairCalls(done)
  {
    forall q | q in done ensures PairCall(q) != PairCall(p) {
      SplitUndoesJoinIff(p.0, p.1);
      SplitUndoesJoinIff(q.0, q.1);
    }
  }

  /**
   One item per wallet and chain, which the workers split back. Without bars in
   addresses that asks about each wallet once on each of its chains.
   */
  method AskRelated(u: Universe) returns (calls: seq<Request>)
    ensures |calls| == |PairsOf(u)| && Elems(calls) == ItemCalls(RelatedItems(u))
    ensures NoBarInAddresses(u) ==> AsksOnce(calls, RelatedCalls(u, u.wallets.Keys))
  {
    PairsAreItems(u);
    calls := [];
    var todo := PairsOf(u);
    ghost var done := {};
    while todo != {}
      invariant todo !! done && todo + done == PairsOf(u)
      invariant PairsAsked(u, calls, done)
    {
      var p :| p in todo;
      NextPairCall(u, calls, done, p);
      calls := calls + [PairCall(p)];
      done, todo := done + {p}, todo - {p};
    }
    if NoBarInAddresses(u) {
      ItemsAreCalls(u);
    }
  }

  method AskTokens(u: Universe, keys: set<string>, stage: Endpoint) returns (calls: seq<Request>)
    requires Consistent(u) && keys <= u.tokens.Keys
    ensures AsksOnce(calls, TokenCalls(u, keys, stage))
  {
    calls := [];
    var todo := keys;
    ghost var done := {};
    while todo != {}
      invariant todo !! done && todo + done == keys
      invariant AsksOnce(calls, TokenCalls(u, done, stage))
    {
      var k :| k in todo;
      AskOneMore(calls, TokenCalls(u, done, stage), TokenCall(u, k, stage));
      calls := calls + [TokenCall(u, k, stage)];
      done, todo := done + {k}, todo - {k};
    }
  }

  /** The keys to price: each report with a verdict and at least one purchase. */
  method PriceKeys(seed: seq<DexTrade>, rows: seq<TokenReport>) returns (keys: set<string>)
    ensures keys == Priced(seed, rows)
  {
    var buys := SeedBuys(seed);
    keys := {};
    for i := 0 to |rows|
      invariant keys == Priced(seed, rows[..i])
    {
      assert rows[..i + 1] == rows[..i] + [rows[i]];
      if rows[i].verdict != Weak && |BuysUnder(buys, rows[i].key)| > 0 {
        keys := keys + {rows[i].key};
      }
    }
    assert rows[..|rows|] == rows;
  }

  /** A token is priced exactly when some row of it has a verdict other than WEAK and the seed has a purchase of it. */
  lemma PricedIff(seed: seq<DexTrade>, rows: seq<TokenReport>, k: string)
    ensures k in Priced(seed, rows) <==>
      (exists i :: 0 <= i < |rows| && rows[i].key == k && rows[i].verdict != Weak) && Purchased(seed, k)
  {
    FillsIffPurchased(seed, k);
    if i :| 0 <= i < |rows| && rows[i].key == k && rows[i].verdict != Weak {
      assert rows[i] in rows;
    }
  }

  /** Some token of the universe has that chain and address. */
  ghost predicate HasToken(u: Universe, chain: string, address: string)
  {
    exists k :: k in u.tokens && u.tokens[k].chain == chain && u.tokens[k].address == address
  }

  /** Some token of the universe with that chain and address has a row with a verdict and a purchase. */
  ghost predicate HasPriced(u: Universe, seed: seq<DexTrade>, rows: seq<TokenReport>, chain: string, address: string)
  {
    exists k ::
      && k in u.tokens && u.tokens[k].chain == chain && u.tokens[k].address == address && Purchased(seed, k)
      && exists i :: 0 <= i < |rows| && rows[i].key == k && rows[i].verdict != Weak
  }

  /** What a run asks, request by request. */
  ghost predicate IsAsked(u: Universe, seed: seq<DexTrade>, rows: seq<TokenReport>, r: Request)
  {
    match r
    case DexTrades => true
    case PnLSummary(a) => a in u.wallets
    case RelatedWallets(a, c) => a in u.wallets && c in u.wallets[a].chains
    case FlowIntelligence(c, t) => HasToken(u, c, t)
    case TokenInformation(c, t) => HasToken(u, c, t)
    case TokenOHLCV(c, t) => HasPriced(u, seed, rows, c, t)
  }

  lemma TokenCallsMean(u: Universe, chain: string, address: string)
    ensures FlowIntelligence(chain, address) in TokenCalls(u, u.tokens.Keys, TGMFlowIntelligence) <==> HasToken(u, chain, address)
    ensures TokenInformation(chain, address) in TokenCalls(u, u.tokens.Keys, TGMTokenInformation) <==> HasToken(u, chain, address)
  {
    if k :| k in u.tokens && u.tokens[k].chain == chain && u.tokens[k].address == address {
      assert TokenCall(u, k, TGMFlowIntelligence) == FlowIntelligence(chain, address);
      assert TokenCall(u, k, TGMTokenInformation) == TokenInformation(chain, address);
    }
  }

  lemma PricedCallsMean(u: Universe, seed: seq<DexTrade>, rows: seq<TokenReport>, chain: string, address: string)
    ensures TokenOHLCV(chain, address) in TokenCalls(u, Priced(seed, rows), TGMTokenOHLCV) <==> HasPriced(u, seed, rows, chain, address)
  {
    forall k ensures k in Priced(seed, rows) <==>
      (exists i :: 0 <= i < |rows| && rows[i].key == k && rows[i].verdict != Weak) && Purchased(seed, k)
    {
      PricedIff(seed, rows, k);
    }
    if k :| k in Priced(seed, rows) && k in u.tokens && u.tokens[k].chain == chain && u.tokens[k].address == address {
      assert TokenCall(u, k, TGMTokenOHLCV) == TokenOHLCV(chain, address);
      assert HasPriced(u, seed, rows, chain, address);
    }
  }

  /** The requests of a run are exactly those. */
  lemma RunCallsMean(u: Universe, seed: seq<DexTrade>, rows: seq<TokenReport>, r: Request)
    ensures r in RunCalls(u, seed, rows) <==> IsAsked(u, seed, rows, r)
  {
    StagesAreApart(u, Priced(seed, rows));
    match r {
      case FlowIntelligence(c, t) => TokenCallsMean(u, c, t);
      case TokenInformation(c, t) => TokenCallsMean(u, c, t);
      case TokenOHLCV(c, t) => PricedCallsMean(u, seed, rows, c, t);
      case _ =>
    }
  }

  lemma AskBoth(a: seq<Request>, s: set<Request>, b: seq<Request>, t: set<Request>)
    requires AsksOnce(a, s) && AsksOnce(b, t) && s !! t
    ensures AsksOnce(a + b, s + t)
  {
    forall i, j | 0 <= i < j < |a + b| ensures (a + b)[i] != (a + b)[j] {
      if i < |a| <= j {
        assert a[i] in Elems(a) && b[j - |a|] in Elems(b);
      }
    }
    forall x ensures x in Elems(a + b) <==> x in s + t {
      assert x in Elems(a) <==> x in a;
    }
  }

  /** What one run does: the cut universe, its report, and every request it makes once. */
  ghost predicate IsRun(seed: seq<DexTrade>, max: int, outcomes: Inputs, u: Universe, rows: seq<TokenReport>, calls: seq<Request>)
  {
    && IsLimited(Derived(seed), max, u)
    && IsReport(outcomes.(universe := u), rows)
    && AsksOnce(calls, RunCalls(u, seed, rows))
  }

  predicate NoBarInTraders(seed: seq<DexTrade>)
  {
    forall tr :: tr in seed ==> '|' !in tr.trader
  }

  lemma LimitedTraders(seed: seq<DexTrade>, max: int, u: Universe)
    requires NoBarInTraders(seed) && IsLimited(Derived(seed), max, u)
    ensures NoBarInAddresses(u)
  {
    DerivedMeans(seed);
    forall a | a in u.wallets ensures '|' !in a {
      assert a in Derived(seed).wallets.Keys;
    }
  }

  /** Everything a run asks, whatever its wallets are called. */
  function RunAsks(u: Universe, seed: seq<DexTrade>, rows: seq<TokenReport>): set<Request>
  {
    {DexTrades} + PnLCalls(u.wallets.Keys) + ItemCalls(RelatedItems(u)) + TokenCalls(u, u.tokens.Keys, TGMFlowIntelligence) +
    TokenCalls(u, u.tokens.Keys, TGMTokenInformation) + TokenCalls(u, Priced(seed, rows), TGMTokenOHLCV)
  }

  /** A run that is not cancelled, every outcome given. It crashes exactly when a worker's item names no wallet. */
  method Run(seed: seq<DexTrade>, max: int, outcomes: Inputs)
    returns (crashed: bool, u: Universe, rows: seq<TokenReport>, calls: seq<Request>)
    ensures IsLimited(Derived(seed), max, u) && (crashed <==> !ItemsNameWallets(u))
    ensures !crashed ==> IsReport(outcomes.(universe := u), rows) && Elems(calls) == RunAsks(u, seed, rows)
    ensures NoBarInTraders(seed) ==> !crashed && IsRun(seed, max, outcomes, u, rows, calls)
  {
    u := LimitedUniverse(seed, max);
    if NoBarInTraders(seed) {
      LimitedTraders(seed, max, u);
      NoBarNamesWallets(u);
    }
    crashed, rows := BuildReports(outcomes.(universe := u));
    if crashed {
      return true, u, [], [];
    }
    var pnl := AskPnL(u);
    var related := AskRelated(u);
    var flow := AskTokens(u, u.tokens.Keys, TGMFlowIntelligence);
    var info := AskTokens(u, u.tokens.Keys, TGMTokenInformation);
    var keys := PriceKeys(seed, rows);
    var moves := AskTokens(u, keys, TGMTokenOHLCV);
    calls := [DexTrades] + pnl + related + flow + info + moves;
    AllAsked(u, seed, rows, pnl, related, flow, info, moves);
  }

  lemma AllAsked(u: Universe, seed: seq<DexTrade>, rows: seq<TokenReport>,
                 pnl: seq<Request>, related: seq<Request>, flow: seq<Request>, info: seq<Request>, moves: seq<Request>)
    requires AsksOnce(pnl, PnLCalls(u.wallets.Keys)) && Elems(related) == ItemCalls(RelatedItems(u))
    requires NoBarInAddresses(u) ==> AsksOnce(related, RelatedCalls(u, u.wallets.Keys))
    requires AsksOnce(flow, TokenCalls(u, u.tokens.Keys, TGMFlowIntelligence))
    requires AsksOnce(info, TokenCalls(u, u.tokens.Keys, TGMTokenInformation))
    requires AsksOnce(moves, TokenCalls(u, Priced(seed, rows), TGMTokenOHLCV))
    ensures Elems([DexTrades] + pnl + related + flow + info + moves) == RunAsks(u, seed, rows)
    ensures NoBarInAddresses(u) ==> AsksOnce([DexTrades] + pnl + related + flow + info + moves, RunCalls(u, seed, rows))
  {
    ElemsSix([DexTrades], pnl, related, flow, info, moves);
    if NoBarInAddresses(u) {
      StagesAreApart(u, Priced(seed, rows));
      AskSix([DexTrades], {DexTrades}, pnl, PnLCalls(u.wallets.Keys), related, RelatedCalls(u, u.wallets.Keys),
             flow, TokenCalls(u, u.tokens.Keys, TGMFlowIntelligence), info, TokenCalls(u, u.tokens.Keys, TGMTokenInformation),
             moves, TokenCalls(u, Priced(seed, rows), TGMTokenOHLCV));
    }
  }

  lemma ElemsSix(a: seq<Request>, b: seq<Request>, c: seq<Request>, d: seq<Request>, e: seq<Request>, f: seq<Request>)
    ensures Elems(a + b + c + d + e + f) == Elems(a) + Elems(b) + Elems(c) + Elems(d) + Elems(e) + Elems(f)
  {
  }

  ghost predicate AllAt(calls: set<Request>, e: Endpoint)
  {
    forall r :: r in calls ==> EndpointOf(r) == e
  }

  lemma StagesAreApart(u: Universe, keys: set<string>)
    ensures AllAt({DexTrades}, SmartMoneyDexTrades)
    ensures AllAt(PnLCalls(u.wallets.Keys), ProfilerPnLSummary)
    ensures AllAt(RelatedCalls(u, u.wallets.Keys), ProfilerRelatedWallets)
    ensures AllAt(TokenCalls(u, u.tokens.Keys, TGMFlowIntelligence), TGMFlowIntelligence)
    ensures AllAt(TokenCalls(u, u.tokens.Keys, TGMTokenInformation), TGMTokenInformation)
    ensures AllAt(TokenCalls(u, keys, TGMTokenOHLCV), TGMTokenOHLCV)
  {
  }

  lemma AskSix(
    a: seq<Request>, s: set<Request>, b: seq<Request>, t: set<Request>, c: seq<Request>, x: set<Request>,
    d: seq<Request>, y: set<Request>, e: seq<Request>, z: set<Request>, f: seq<Request>, w: set<Request>)
    requires AsksOnce(a, s) && AsksOnce(b, t) && AsksOnce(c, x) && AsksOnce(d, y) && AsksOnce(e, z) && AsksOnce(f, w)
    requires AllAt(s, SmartMoneyDexTrades) && AllAt(t, ProfilerPnLSummary) && AllAt(x, ProfilerRelatedWallets)
    requires AllAt(y, TGMFlowIntelligence) && AllAt(z, TGMTokenInformation) && AllAt(w, TGMTokenOHLCV)
    ensures AsksOnce(a + b + c + d + e + f, s + t + x + y + z + w)
  {
    AskBoth(a, s, b, t);
    AskBoth(a + b, s + t, c, x);
    AskBoth(a + b + c, s + t + x, d, y);
    AskBoth(a + b + c + d, s + t + x + y, e, z);
    AskBoth(a + b + c + d + e, s + t + x + y + z, f, w);
  }

  // ---- The plan prices the run ----

  function At(calls: set<Request>, e: Endpoint): set<Request>
  {
    set r | r in calls && EndpointOf(r) == e
  }

  /** The run's requests of each stage are the set that stage's line prices; the last line's set contains them. */
  lemma StagesOfRun(u: Universe, seed: seq<DexTrade>, inp: Inputs, rows: seq<TokenReport>)
    requires IsReport(inp, rows) && inp.universe == u
    ensures At(RunCalls(u, seed, rows), SmartMoneyDexTrades) == {DexTrades}
    ensures At(RunCalls(u, seed, rows), ProfilerPnLSummary) == PnLCalls(u.wallets.Keys)
    ensures At(RunCalls(u, seed, rows), ProfilerRelatedWallets) == RelatedCalls(u, u.wallets.Keys)
    ensures At(RunCalls(u, seed, rows), TGMFlowIntelligence) == TokenCalls(u, u.tokens.Keys, TGMFlowIntelligence)
    ensures At(RunCalls(u, seed, rows), TGMTokenInformation) == TokenCalls(u, u.tokens.Keys, TGMTokenInformation)
    ensures At(RunCalls(u, seed, rows), TGMTokenOHLCV) <= TokenCalls(u, Priceable(u, seed), TGMTokenOHLCV)
  {
    StagesAreApart(u, Priced(seed, rows));
    SixStages({DexTrades}, PnLCalls(u.wallets.Keys), RelatedCalls(u, u.wallets.Keys), TokenCalls(u, u.tokens.Keys, TGMFlowIntelligence),
              TokenCalls(u, u.tokens.Keys, TGMTokenInformation), TokenCalls(u, Priced(seed, rows), TGMTokenOHLCV));
    assert TokenCalls(u, Priced(seed, rows), TGMTokenOHLCV) <= TokenCalls(u, Priceable(u, seed), TGMTokenOHLCV);
  }

  lemma SixStages(s: set<Request>, t: set<Request>, x: set<Request>, y: set<Request>, z: set<Request>, w: set<Request>)
    requires AllAt(s, SmartMoneyDexTrades) && AllAt(t, ProfilerPnLSummary) && AllAt(x, ProfilerRelatedWallets)
    requires AllAt(y, TGMFlowIntelligence) && AllAt(z, TGMTokenInformation) && AllAt(w, TGMTokenOHLCV)
    ensures At(s + t + x + y + z + w, SmartMoneyDexTrades) == s && At(s + t + x + y + z + w, ProfilerPnLSummary) == t
    ensures At(s + t + x + y + z + w, ProfilerRelatedWallets) == x && At(s + t + x + y + z + w, TGMFlowIntelligence) == y
    ensures At(s + t + x + y + z + w, TGMTokenInformation) == z && At(s + t + x + y + z + w, TGMTokenOHLCV) == w
  {
  }

  /** What the run is charged: the cost of each request that the cache does not hold. */
  function Charged(calls: seq<Request>, cache: set<Request>, cost: Endpoint -> nat): nat
  {
    if |calls| == 0 then 0
    else Charged(DropLast(calls), cache, cost) + (if Last(calls) in cache then 0 else cost(EndpointOf(Last(calls))))
  }

  function Misses(calls: set<Request>, cache: set<Request>, e: Endpoint): set<Request>
  {
    At(calls, e) - cache
  }

  function ChargedAt(calls: set<Request>, cache: set<Request>, cost: Endpoint -> nat, e: Endpoint): nat
  {
    Times(|Misses(calls, cache, e)|, cost(e))
  }

  function Times(n: nat, c: nat): nat
  {
    if n == 0 then 0 else Times(n - 1, c) + c
  }

  lemma TimesIsProduct(n: nat, c: nat)
    ensures Times(n, c) == n * c
  {
  }

  lemma MissesOneMore(calls: set<Request>, cache: set<Request>, r: Request, e: Endpoint)
    requires r !in calls
    ensures Misses(calls + {r}, cache, e) == Misses(calls, cache, e) + (if e == EndpointOf(r) && r !in cache then {r} else {})
    ensures r !in Misses(calls, cache, e)
  {
  }

  lemma MissOneMore(calls: set<Request>, cache: set<Request>, cost: Endpoint -> nat, r: Request, e: Endpoint)
    requires r !in calls
    ensures ChargedAt(calls + {r}, cache, cost, e) ==
      ChargedAt(calls, cache, cost, e) + (if e == EndpointOf(r) && r !in cache then cost(e) else 0)
  {
    MissesOneMore(calls, cache, r, e);
    var before := Misses(calls, cache, e);
    if e == EndpointOf(r) && r !in cache {
      OneLarger(before, r, cost(e));
    } else {
      assert before + {} == before;
    }
  }

  lemma OneLarger(s: set<Request>, r: Request, c: nat)
    requires r !in s
    ensures Times(|s + {r}|, c) == Times(|s|, c) + c
  {
    assert |s + {r}| == |s| + 1;
  }

  function ChargedInAll(calls: set<Request>, cache: set<Request>, cost: Endpoint -> nat): nat
  {
    ChargedAt(calls, cache, cost, SmartMoneyDexTrades) + ChargedAt(calls, cache, cost, ProfilerPnLSummary) +
    ChargedAt(calls, cache, cost, ProfilerRelatedWallets) + ChargedAt(calls, cache, cost, TGMFlowIntelligence) +
    ChargedAt(calls, cache, cost, TGMTokenInformation) + ChargedAt(calls, cache, cost, TGMTokenOHLCV)
  }

  lemma ChargeOneMore(calls: set<Request>, cache: set<Request>, cost: Endpoint -> nat, r: Request)
    requires r !in calls
    ensures ChargedInAll(calls + {r}, cache, cost) == ChargedInAll(calls, cache, cost) + (if r in cache then 0 else cost(EndpointOf(r)))
  {
    MissOneMore(calls, cache, cost, r, SmartMoneyDexTrades);
    MissOneMore(calls, cache, cost, r, ProfilerPnLSummary);
    MissOneMore(calls, cache, cost, r, ProfilerRelatedWallets);
    MissOneMore(calls, cache, cost, r, TGMFlowIntelligence);
    MissOneMore(calls, cache, cost, r, TGMTokenInformation);
    MissOneMore(calls, cache, cost, r, TGMTokenOHLCV);
  }

  /** The charge, endpoint by endpoint. */
  lemma {:induction false} ChargedByEndpoint(calls: seq<Request>, cache: set<Request>, cost: Endpoint -> nat)
    requires Distinct(calls)
    ensures Charged(calls, cache, cost) == ChargedInAll(Elems(calls), cache, cost)
    decreases |calls|
  {
    if |calls| > 0 {
      LastIsNew(calls);
      ChargedByEndpoint(DropLast(calls), cache, cost);
      ChargeOneMore(Elems(DropLast(calls)), cache, cost, Last(calls));
    } else {
      assert Elems(calls) == {};
    }
  }

  /** In all, each endpoint's cost as often as it was missed. */
  lemma ChargedInProducts(calls: seq<Request>, cache: set<Request>, cost: Endpoint -> nat)
    requires Distinct(calls)
    ensures var missed := Elems(calls) - cache;
      Charged(calls, cache, cost) ==
        |At(missed, SmartMoneyDexTrades)| * cost(SmartMoneyDexTrades) + |At(missed, ProfilerPnLSummary)| * cost(ProfilerPnLSummary) +
        |At(missed, ProfilerRelatedWallets)| * cost(ProfilerRelatedWallets) + |At(missed, TGMFlowIntelligence)| * cost(TGMFlowIntelligence) +
        |At(missed, TGMTokenInformation)| * cost(TGMTokenInformation) + |At(missed, TGMTokenOHLCV)| * cost(TGMTokenOHLCV)
  {
    ChargedByEndpoint(calls, cache, cost);
    ChargedAtIsProduct(Elems(calls), cache, cost, SmartMoneyDexTrades);
    ChargedAtIsProduct(Elems(calls), cache, cost, ProfilerPnLSummary);
    ChargedAtIsProduct(Elems(calls), cache, cost, ProfilerRelatedWallets);
    ChargedAtIsProduct(Elems(calls), cache, cost, TGMFlowIntelligence);
    ChargedAtIsProduct(Elems(calls), cache, cost, TGMTokenInformation);
    ChargedAtIsProduct(Elems(calls), cache, cost, TGMTokenOHLCV);
  }

  lemma ChargedAtIsProduct(calls: set<Request>, cache: set<Request>, cost: Endpoint -> nat, e: Endpoint)
    ensures ChargedAt(calls, cache, cost, e) == |At(calls - cache, e)| * cost(e)
  {
    assert At(calls - cache, e) == Misses(calls, cache, e);
    TimesIsProduct(|Misses(calls, cache, e)|, cost(e));
  }

  /** Which endpoint each request goes to. */
  lemma EndpointIff(r: Request)
    ensures EndpointOf(r) == SmartMoneyDexTrades <==> r == DexTrades
    ensures EndpointOf(r) == ProfilerPnLSummary <==> exists a :: r == PnLSummary(a)
    ensures EndpointOf(r) == ProfilerRelatedWallets <==> exists a, c :: r == RelatedWallets(a, c)
    ensures EndpointOf(r) == TGMFlowIntelligence <==> exists c, t :: r == FlowIntelligence(c, t)
    ensures EndpointOf(r) == TGMTokenInformation <==> exists c, t :: r == TokenInformation(c, t)
    ensures EndpointOf(r) == TGMTokenOHLCV <==> exists c, t :: r == TokenOHLCV(c, t)
  {
  }

  /** The line prices its stage exactly. */
  ghost predicate Exact(item: PlanItem, calls: set<Request>, cache: set<Request>)
  {
    && item.total == |At(calls, item.endpoint)| && item.newCalls == |Misses(calls, cache, item.endpoint)|
    && item.cached + item.newCalls == item.total
  }

  /** The line is a ceiling for its stage. */
  ghost predicate Ceiling(item: PlanItem, calls: set<Request>, cache: set<Request>)
  {
    item.total >= |At(calls, item.endpoint)| && item.newCalls >= |Misses(calls, cache, item.endpoint)|
  }

  lemma PricesExactly(item: PlanItem, e: Endpoint, calls: set<Request>, cache: set<Request>, cost: Endpoint -> nat)
    requires Prices(item, e, At(calls, e), cache, cost)
    ensures Exact(item, calls, cache) && item.NewCreditsEstimate() == ChargedAt(calls, cache, cost, e)
  {
    TimesIsProduct(|Misses(calls, cache, e)|, cost(e));
    assert At(calls, e) == At(calls, e) * cache + Misses(calls, cache, e);
  }

  lemma PricesAtMost(item: PlanItem, e: Endpoint, planned: set<Request>, calls: set<Request>, cache: set<Request>, cost: Endpoint -> nat)
    requires Prices(item, e, planned, cache, cost) && At(calls, e) <= planned
    ensures Ceiling(item, calls, cache) && item.NewCreditsEstimate() >= ChargedAt(calls, cache, cost, e)
  {
    SubsetSize(At(calls, e), planned);
    SubsetSize(Misses(calls, cache, e), planned - cache);
    TimesGrows(|Misses(calls, cache, e)|, |planned - cache|, cost(e));
    TimesIsProduct(|planned - cache|, cost(e));
  }

  lemma TimesGrows(m: nat, n: nat, c: nat)
    requires m <= n
    ensures Times(m, c) <= Times(n, c)
  {
  }

  function Estimate(items: seq<PlanItem>): int
  {
    if |items| == 0 then 0 else Estimate(DropLast(items)) + Last(items).NewCreditsEstimate()
  }

  /**
   The plan made from a cached seed prices the run on that seed: every line but
   the last counts exactly the requests the run makes and the ones it will miss,
   the last is a ceiling, and the estimate bounds what the run is charged.
   */
  lemma PlanPricesTheRun(
    seed: seq<DexTrade>, max: int, outcomes: Inputs, u: Universe, rows: seq<TokenReport>, calls: seq<Request>,
    v: Universe, cache: set<Request>, cost: Endpoint -> nat, items: seq<PlanItem>)
    requires IsRun(seed, max, outcomes, u, rows, calls)
    requires IsLimited(Derived(seed), max, v) && PlanFor(v, seed, cache, cost, items)
    ensures forall i :: 0 <= i < 5 ==> Exact(items[i], Elems(calls), cache)
    ensures Ceiling(items[5], Elems(calls), cache)
    ensures Estimate(items[..5]) <= Charged(calls, cache, cost) <= Estimate(items)
  {
    LimitIsDetermined(Derived(seed), max, u, v);
    StagesOfRun(u, seed, outcomes.(universe := u), rows);
    LinesPrice(u, seed, cache, cost, items, Elems(calls));
    ChargedByEndpoint(calls, cache, cost);
    SixEstimates(items);
  }

  lemma LinesPrice(u: Universe, seed: seq<DexTrade>, cache: set<Request>, cost: Endpoint -> nat, items: seq<PlanItem>, asked: set<Request>)
    requires PlanFor(u, seed, cache, cost, items)
    requires At(asked, SmartMoneyDexTrades) == {DexTrades} && At(asked, ProfilerPnLSummary) == PnLCalls(u.wallets.Keys)
    requires At(asked, ProfilerRelatedWallets) == RelatedCalls(u, u.wallets.Keys)
    requires At(asked, TGMFlowIntelligence) == TokenCalls(u, u.tokens.Keys, TGMFlowIntelligence)
    requires At(asked, TGMTokenInformation) == TokenCalls(u, u.tokens.Keys, TGMTokenInformation)
    requires At(asked, TGMTokenOHLCV) <= TokenCalls(u, Priceable(u, seed), TGMTokenOHLCV)
    ensures forall i :: 0 <= i < 5 ==> Exact(items[i], asked, cache)
    ensures Ceiling(items[5], asked, cache)
    ensures items[0].NewCreditsEstimate() == ChargedAt(asked, cache, cost, SmartMoneyDexTrades)
    ensures items[1].NewCreditsEstimate() == ChargedAt(asked, cache, cost, ProfilerPnLSummary)
    ensures items[2].NewCreditsEstimate() == ChargedAt(asked, cache, cost, ProfilerRelatedWallets)
    ensures items[3].NewCreditsEstimate() == ChargedAt(asked, cache, cost, TGMFlowIntelligence)
    ensures items[4].NewCreditsEstimate() == ChargedAt(asked, cache, cost, TGMTokenInformation)
    ensures items[5].NewCreditsEstimate() >= ChargedAt(asked, cache, cost, TGMTokenOHLCV)
  {
    PricesExactly(items[0], SmartMoneyDexTrades, asked, cache, cost);
    PricesExactly(items[1], ProfilerPnLSummary, asked, cache, cost);
    PricesExactly(items[2], ProfilerRelatedWallets, asked, cache, cost);
    PricesExactly(items[3], TGMFlowIntelligence, asked, cache, cost);
    PricesExactly(items[4], TGMTokenInformation, asked, cache, cost);
    PricesAtMost(items[5], TGMTokenOHLCV, TokenCalls(u, Priceable(u, seed), TGMTokenOHLCV), asked, cache, cost);
  }

  lemma SixEstimates(items: seq<PlanItem>)
    requires |items| == 6
    ensures Estimate(items[..5]) == items[0].NewCreditsEstimate() + items[1].NewCreditsEstimate() + items[2].NewCreditsEstimate() +
      items[3].NewCreditsEstimate() + items[4].NewCreditsEstimate()
    ensures Estimate(items) == Estimate(items[..5]) + items[5].NewCreditsEstimate()
  {
    OneEstimateMore(items, 0);
    OneEstimateMore(items, 1);
    OneEstimateMore(items, 2);
    OneEstimateMore(items, 3);
    OneEstimateMore(items, 4);
    OneEstimateMore(items, 5);
    assert items[..6] == items && items[..0] == [];
  }

  lemma OneEstimateMore(items: seq<PlanItem>, i: nat)
    requires i < |items|
    ensures Estimate(items[..i + 1]) == Estimate(items[..i]) + items[i].NewCreditsEstimate()
  {
    assert DropLast(items[..i + 1]) == items[..i];
  }

  // ---- Run after run ----

  /**
   With the same replies to what is asked, two runs on one seed agree on the
   universe, the report and the requests.
   */
  lemma RunIsDetermined(
    seed: seq<DexTrade>, max: int, first: Inputs, again: Inputs,
    u1: Universe, rows1: seq<TokenReport>, calls1: seq<Request>, u2: Universe, rows2: seq<TokenReport>, calls2: seq<Request>)
    requires IsRun(seed, max, first, u1, rows1, calls1) && IsRun(seed, max, again, u2, rows2, calls2)
    requires SameReplies(first.(universe := u1), again.(universe := u1))
    ensures u1 == u2 && SaidByAll(rows1) == SaidByAll(rows2) && multiset(calls1) == multiset(calls2)
  {
    LimitIsDetermined(Derived(seed), max, u1, u2);
    OnlyRepliesMatter(first.(universe := u1), again.(universe := u1), rows1, rows2);
    PricedFromSaid(seed, rows1, rows2);
    PricedFromSaid(seed, rows2, rows1);
    SameElementsPermuted(calls1, calls2);
  }

  lemma PricedFromSaid(seed: seq<DexTrade>, rows1: seq<TokenReport>, rows2: seq<TokenReport>)
    requires SaidByAll(rows1) == SaidByAll(rows2)
    ensures Priced(seed, rows1) <= Priced(seed, rows2)
  {
    forall k | k in Priced(seed, rows1) ensures k in Priced(seed, rows2) {
      var i :| 0 <= i < |rows1| && rows1[i].key == k && rows1[i].verdict != Weak && |FillsOf(seed, k)| > 0;
      assert SaidByAll(rows1)[i] == SaidBy(rows1[i]) && SaidByAll(rows2)[i] == SaidBy(rows2[i]);
      assert rows2[i] in rows2;
    }
  }

  /** Whether the request's call succeeds. */
  predicate Succeeds(outcomes: Inputs, r: Request)
  {
    match r
    case DexTrades => true
    case PnLSummary(a) => outcomes.pnl(a).Some?
    case RelatedWallets(a, c) => outcomes.related(a, c).Some?
    case FlowIntelligence(chain, token) => outcomes.flow(TokenKey(chain, token)).Some?
    case TokenInformation(chain, token) => outcomes.info(TokenKey(chain, token))
    case TokenOHLCV(chain, token) => outcomes.bars(TokenKey(chain, token)).Some?
  }

  /** What the run leaves in the cache. */
  function CacheAfter(calls: seq<Request>, cache: set<Request>, outcomes: Inputs): set<Request>
  {
    cache + set r | r in calls && Succeeds(outcomes, r)
  }

  /** The requests in any order against the disk cache: a hit is free, a miss that succeeds is stored. */
  method Perform(calls: seq<Request>, cache: set<Request>, outcomes: Inputs, cost: Endpoint -> nat)
    returns (after: set<Request>, charged: nat)
    requires Distinct(calls)
    ensures charged == Charged(calls, cache, cost)
    ensures after == CacheAfter(calls, cache, outcomes)
  {
    after, charged := cache, 0;
    for i := 0 to |calls|
      invariant after == CacheAfter(calls[..i], cache, outcomes)
      invariant charged == Charged(calls[..i], cache, cost)
    {
      var r := calls[i];
      assert DropLast(calls[..i + 1]) == calls[..i] && calls[..i + 1] == calls[..i] + [r];
      if r !in after {
        charged := charged + cost(EndpointOf(r));
        if Succeeds(outcomes, r) {
          after := after + {r};
        }
      }
      assert r in after && r !in cache ==> Succeeds(outcomes, r);
    }
    assert calls[..|calls|] == calls;
  }

  /**
   A repeat with the same replies misses exactly the requests of the first run
   that were not cached before it and failed in it. After a run in which every
   such call succeeded it misses nothing and is charged nothing.
   */
  lemma RepeatMissesTheFailures(
    seed: seq<DexTrade>, max: int, first: Inputs, again: Inputs, cache: set<Request>, cost: Endpoint -> nat,
    u1: Universe, rows1: seq<TokenReport>, calls1: seq<Request>, u2: Universe, rows2: seq<TokenReport>, calls2: seq<Request>)
    requires IsRun(seed, max, first, u1, rows1, calls1) && IsRun(seed, max, again, u2, rows2, calls2)
    requires SameReplies(first.(universe := u1), again.(universe := u1))
    ensures Elems(calls2) - CacheAfter(calls1, cache, first) == set r | r in calls1 && r !in cache && !Succeeds(first, r)
    ensures (forall r :: r in calls1 ==> r in cache || Succeeds(first, r)) ==> Charged(calls2, CacheAfter(calls1, cache, first), cost) == 0
  {
    RunIsDetermined(seed, max, first, again, u1, rows1, calls1, u2, rows2, calls2);
    RepeatOfSameCalls(calls1, calls2, cache, first, cost);
  }

  /** A request is in the cache after a run exactly when it was before, or was asked and got its reply. */
  lemma CachedAfterIff(calls: seq<Request>, cache: set<Request>, outcomes: Inputs, r: Request)
    ensures r in CacheAfter(calls, cache, outcomes) <==> r in cache || (r in calls && match r
      case DexTrades => true
      case PnLSummary(a) => outcomes.pnl(a).Some?
      case RelatedWallets(a, c) => outcomes.related(a, c).Some?
      case FlowIntelligence(c, t) => outcomes.flow(c + ":" + t).Some?
      case TokenInformation(c, t) => outcomes.info(c + ":" + t)
      case TokenOHLCV(c, t) => outcomes.bars(c + ":" + t).Some?)
  {
  }

  lemma RepeatOfSameCalls(calls1: seq<Request>, calls2: seq<Request>, cache: set<Request>, first: Inputs, cost: Endpoint -> nat)
    requires multiset(calls1) == multiset(calls2)
    ensures Elems(calls2) - CacheAfter(calls1, cache, first) == set r | r in calls1 && r !in cache && !Succeeds(first, r)
    ensures (forall r :: r in calls1 ==> r in cache || Succeeds(first, r)) ==> Charged(calls2, CacheAfter(calls1, cache, first), cost) == 0
  {
    PermutationFacts(calls1, calls2);
    if forall r :: r in calls1 ==> r in cache || Succeeds(first, r) {
      AllCachedIsFree(calls2, CacheAfter(calls1, cache, first), cost);
    }
  }

  lemma {:induction false} AllCachedIsFree(calls: seq<Request>, cache: set<Request>, cost: Endpoint -> nat)
    requires forall r :: r in calls ==> r in cache
    ensures Charged(calls, cache, cost) == 0
    decreases |calls|
  {
    if |calls| > 0 {
      AllCachedIsFree(DropLast(calls), cache, cost);
    }
  }
}
