/** The wallets and tokens a seed implies, and the cut to the highest-conviction wallets. */
module Universe {
  import opened Order
  import opened Concentration
  import opened Score

  datatype DexTrade = DexTrade(
    chain: string,
    time: Timestamp,
    trader: string,
    traderLabel: string,
    boughtAddress: string,
    boughtSymbol: string,
    boughtAmount: real,
    soldAddress: string,
    soldSymbol: string,
    tradeValueUSD: real)

  datatype WalletAgg = WalletAgg(address: string, label_: string, lastTrade: Timestamp, boughtTokens: Trades, chains: set<string>)

  datatype TokenAgg = TokenAgg(chain: string, address: string, seedSymbol: string)

  datatype Universe = Universe(wallets: map<string, WalletAgg>, tokens: map<string, TokenAgg>)

  function TokenKey(chain: string, address: string): string
  {
    chain + ":" + address
  }

  predicate Later(a: Timestamp, b: Timestamp)
  {
    a.At? && (b.Never? || a.hours > b.hours)
  }

  /** Records a token side of a trade: the first sighting fixes the token, the first symbol names it. */
  function Touch(tokens: map<string, TokenAgg>, chain: string, address: string, symbol: string): map<string, TokenAgg>
  {
    if address == "" then tokens
    else
      var k := TokenKey(chain, address);
      var t := if k in tokens then tokens[k] else TokenAgg(chain, address, "");
      tokens[k := if t.seedSymbol == "" && symbol != "" then t.(seedSymbol := symbol) else t]
  }

  function AddTrade(u: Universe, tr: DexTrade): Universe
  {
    var w := if tr.trader in u.wallets then u.wallets[tr.trader] else WalletAgg(tr.trader, "", Never, [], {});
    var labelled := if tr.traderLabel != "" then w.(label_ := tr.traderLabel) else w;
    var seen := labelled.(chains := w.chains + {tr.chain}, lastTrade := if Later(tr.time, w.lastTrade) then tr.time else w.lastTrade);
    var bought :=
      if tr.boughtAddress == "" then seen
      else seen.(boughtTokens := w.boughtTokens + [WalletTokenTrade(TokenKey(tr.chain, tr.boughtAddress), tr.tradeValueUSD)]);
    Universe(
      u.wallets[tr.trader := bought],
      Touch(Touch(u.tokens, tr.chain, tr.boughtAddress, tr.boughtSymbol), tr.chain, tr.soldAddress, tr.soldSymbol))
  }

  function Derived(trades: seq<DexTrade>): Universe
  {
    if |trades| == 0 then Universe(map[], map[]) else AddTrade(Derived(DropLast(trades)), Last(trades))
  }

  method DeriveUniverse(seed: seq<DexTrade>) returns (u: Universe)
    ensures u == Derived(seed)
  {
    u := Universe(map[], map[]);
    for i := 0 to |seed|
      invariant u == Derived(seed[..i])
    {
      assert DropLast(seed[..i + 1]) == seed[..i];
      u := AddTrade(u, seed[i]);
    }
    assert seed[..|seed|] == seed;
  }

  // ---- What the seed implies ----

  /** What the seed says `address` bought, trade by trade. */
  function BoughtBy(trades: seq<DexTrade>, address: string): Trades
  {
    if |trades| == 0 then []
    else
      var tr := Last(trades);
      BoughtBy(DropLast(trades), address) +
      (if tr.trader == address && tr.boughtAddress != ""
       then [WalletTokenTrade(TokenKey(tr.chain, tr.boughtAddress), tr.tradeValueUSD)] else [])
  }

  function ChainsOf(trades: seq<DexTrade>, address: string): set<string>
  {
    set tr | tr in trades && tr.trader == address :: tr.chain
  }

  /** The keys of the token sides a trade names. */
  function SidesOf(tr: DexTrade): set<string>
  {
    (if tr.boughtAddress == "" then {} else {TokenKey(tr.chain, tr.boughtAddress)}) +
    (if tr.soldAddress == "" then {} else {TokenKey(tr.chain, tr.soldAddress)})
  }

  /** The latest time `address` traded at. */
  ghost predicate IsLastTrade(trades: seq<DexTrade>, address: string, last: Timestamp)
  {
    && (forall tr :: tr in trades && tr.trader == address && tr.time.At? ==> last.At? && tr.time.hours <= last.hours)
    && (last == Never || exists tr :: tr in trades && tr.trader == address && tr.time == last)
  }

  /** The `i`-th trade is by `address` and labels it. */
  ghost predicate LabelsTrader(trades: seq<DexTrade>, address: string, i: int)
  {
    0 <= i < |trades| && trades[i].trader == address && trades[i].traderLabel != ""
  }

  /** The last label that a trade of `address` carried, empty if none did. */
  ghost predicate IsLastLabel(trades: seq<DexTrade>, address: string, text: string)
  {
    if text == "" then forall i :: !LabelsTrader(trades, address, i)
    else exists i ::
      && LabelsTrader(trades, address, i) && trades[i].traderLabel == text
      && forall j :: LabelsTrader(trades, address, j) ==> j <= i
  }

  ghost predicate Consistent(u: Universe)
  {
    && (forall a :: a in u.wallets ==> u.wallets[a].address == a && Keys(u.wallets[a].boughtTokens) <= u.tokens.Keys)
    && (forall k :: k in u.tokens ==> u.tokens[k].address != "" && TokenKey(u.tokens[k].chain, u.tokens[k].address) == k)
  }

  lemma TouchFacts(tokens: map<string, TokenAgg>, chain: string, address: string, symbol: string)
    ensures Touch(tokens, chain, address, symbol).Keys == tokens.Keys + (if address == "" then {} else {TokenKey(chain, address)})
    ensures (forall k :: k in tokens ==> tokens[k].address != "" && TokenKey(tokens[k].chain, tokens[k].address) == k) ==>
      forall k :: k in Touch(tokens, chain, address, symbol) ==>
        Touch(tokens, chain, address, symbol)[k].address != "" &&
        TokenKey(Touch(tokens, chain, address, symbol)[k].chain, Touch(tokens, chain, address, symbol)[k].address) == k
  {
  }

  lemma AddTradeKeepsConsistent(u: Universe, tr: DexTrade)
    requires Consistent(u)
    ensures Consistent(AddTrade(u, tr))
  {
    var v := AddTrade(u, tr);
    TouchFacts(u.tokens, tr.chain, tr.boughtAddress, tr.boughtSymbol);
    TouchFacts(Touch(u.tokens, tr.chain, tr.boughtAddress, tr.boughtSymbol), tr.chain, tr.soldAddress, tr.soldSymbol);
    forall a | a in v.wallets ensures v.wallets[a].address == a && Keys(v.wallets[a].boughtTokens) <= v.tokens.Keys {
      if a == tr.trader && tr.boughtAddress != "" {
        KeysOfLast(v.wallets[a].boughtTokens);
      }
    }
  }

  /** A wallet's purchases and chains in a universe, nothing for a wallet it does not have. */
  function PurchasesIn(u: Universe, a: string): Trades
  {
    if a in u.wallets then u.wallets[a].boughtTokens else []
  }

  function ChainsIn(u: Universe, a: string): set<string>
  {
    if a in u.wallets then u.wallets[a].chains else {}
  }

  lemma {:induction false} DerivedPurchases(trades: seq<DexTrade>, a: string)
    ensures PurchasesIn(Derived(trades), a) == BoughtBy(trades, a)
    decreases |trades|
  {
    if |trades| > 0 {
      DerivedPurchases(DropLast(trades), a);
      LastTradeAdds(Derived(DropLast(trades)), Last(trades), a);
    }
  }

  lemma {:induction false} DerivedChains(trades: seq<DexTrade>, a: string)
    ensures ChainsIn(Derived(trades), a) == ChainsOf(trades, a)
    decreases |trades|
  {
    if |trades| > 0 {
      DerivedChains(DropLast(trades), a);
      LastTradeAdds(Derived(DropLast(trades)), Last(trades), a);
      ChainsOfLast(trades, a);
    }
  }

  lemma ChainsOfLast(trades: seq<DexTrade>, a: string)
    requires |trades| > 0
    ensures ChainsOf(trades, a) == ChainsOf(DropLast(trades), a) + (if Last(trades).trader == a then {Last(trades).chain} else {})
  {
    assert trades == DropLast(trades) + [Last(trades)];
  }

  /** A trade adds its chain, and its purchase if it has one, to its trader and to nobody else. */
  lemma LastTradeAdds(u: Universe, tr: DexTrade, a: string)
    ensures PurchasesIn(AddTrade(u, tr), a) == PurchasesIn(u, a) +
      (if tr.trader == a && tr.boughtAddress != "" then [WalletTokenTrade(TokenKey(tr.chain, tr.boughtAddress), tr.tradeValueUSD)] else [])
    ensures ChainsIn(AddTrade(u, tr), a) == ChainsIn(u, a) + (if tr.trader == a then {tr.chain} else {})
  {
  }

  function LastTradeIn(u: Universe, a: string): Timestamp
  {
    if a in u.wallets then u.wallets[a].lastTrade else Never
  }

  lemma {:induction false} DerivedLastTrade(trades: seq<DexTrade>, a: string)
    ensures IsLastTrade(trades, a, LastTradeIn(Derived(trades), a))
    decreases |trades|
  {
    if |trades| > 0 {
      var rest, tr := DropLast(trades), Last(trades);
      DerivedLastTrade(rest, a);
      assert trades == rest + [tr];
      var before, after := LastTradeIn(Derived(rest), a), LastTradeIn(Derived(trades), a);
      assert after == if tr.trader == a && Later(tr.time, before) then tr.time else before;
      if after != Never && !(tr.trader == a && tr.time == after) {
        var t :| t in rest && t.trader == a && t.time == after;
        assert t in trades;
      }
    }
  }

  function LabelIn(u: Universe, a: string): string
  {
    if a in u.wallets then u.wallets[a].label_ else ""
  }

  lemma {:induction false} DerivedLabel(trades: seq<DexTrade>, a: string)
    ensures IsLastLabel(trades, a, LabelIn(Derived(trades), a))
    decreases |trades|
  {
    if |trades| > 0 {
      var rest, last := DropLast(trades), |trades| - 1;
      DerivedLabel(rest, a);
      var before := LabelIn(Derived(rest), a);
      assert forall i :: 0 <= i < last ==> (LabelsTrader(rest, a, i) <==> LabelsTrader(trades, a, i)) && rest[i] == trades[i];
      if LabelsTrader(trades, a, last) {
        assert LabelIn(Derived(trades), a) == trades[last].traderLabel;
      } else {
        assert LabelIn(Derived(trades), a) == before;
        if before != "" {
          var i :| LabelsTrader(rest, a, i) && rest[i].traderLabel == before && forall j :: LabelsTrader(rest, a, j) ==> j <= i;
          assert LabelsTrader(trades, a, i);
        }
      }
    }
  }

  // ---- The tokens ----

  /** A token side as it is met. */
  datatype Side = Side(chain: string, address: string, symbol: string)
  {
    function Key(): string
    {
      chain + ":" + address
    }
  }

  /** The sides a trade names, the one bought before the one sold. */
  function SidesMet(tr: DexTrade): seq<Side>
  {
    (if tr.boughtAddress == "" then [] else [Side(tr.chain, tr.boughtAddress, tr.boughtSymbol)]) +
    (if tr.soldAddress == "" then [] else [Side(tr.chain, tr.soldAddress, tr.soldSymbol)])
  }

  function AllMet(trades: seq<DexTrade>): seq<Side>
  {
    if |trades| == 0 then [] else AllMet(DropLast(trades)) + SidesMet(Last(trades))
  }

  /** The side at `i` is the first of its key. */
  ghost predicate FirstMet(sides: seq<Side>, k: string, i: int)
  {
    0 <= i < |sides| && sides[i].Key() == k && forall j :: 0 <= j < i ==> sides[j].Key() != k
  }

  /** The side at `i` is the first of its key to come with a symbol. */
  ghost predicate FirstNamed(sides: seq<Side>, k: string, i: int)
  {
    && 0 <= i < |sides| && sides[i].Key() == k && sides[i].symbol != ""
    && forall j :: 0 <= j < i && sides[j].Key() == k ==> sides[j].symbol == ""
  }

  /** The token is as first met, with the first symbol it came with. */
  ghost predicate IsMet(sides: seq<Side>, k: string, t: TokenAgg)
  {
    && (exists i :: FirstMet(sides, k, i) && sides[i].chain == t.chain && sides[i].address == t.address)
    && if t.seedSymbol == "" then forall i :: !FirstNamed(sides, k, i)
       else exists i :: FirstNamed(sides, k, i) && sides[i].symbol == t.seedSymbol
  }

  /** The tokens are those met, each as it was met. */
  ghost predicate TokensMet(sides: seq<Side>, tokens: map<string, TokenAgg>)
  {
    && (forall k :: k in tokens ==> IsMet(sides, k, tokens[k]))
    && forall i :: 0 <= i < |sides| ==> sides[i].Key() in tokens
  }

  lemma StillMet(sides: seq<Side>, s: Side, k: string, t: TokenAgg)
    requires IsMet(sides, k, t) && (s.Key() != k || t.seedSymbol != "" || s.symbol == "")
    ensures IsMet(sides + [s], k, t)
  {
    var more := sides + [s];
    assert forall j :: 0 <= j < |sides| ==> more[j] == sides[j];
    var i :| FirstMet(sides, k, i) && sides[i].chain == t.chain && sides[i].address == t.address;
    assert FirstMet(more, k, i);
    if n :| FirstNamed(sides, k, n) && sides[n].symbol == t.seedSymbol {
      assert FirstNamed(more, k, n);
    }
    forall n | FirstNamed(more, k, n) ensures t.seedSymbol != "" {
      assert n < |sides| ==> FirstNamed(sides, k, n);
    }
  }

  lemma NowNamed(sides: seq<Side>, s: Side, t: TokenAgg)
    requires IsMet(sides, s.Key(), t) && t.seedSymbol == "" && s.symbol != ""
    ensures IsMet(sides + [s], s.Key(), t.(seedSymbol := s.symbol))
  {
    var more, k := sides + [s], s.Key();
    assert forall j :: 0 <= j < |sides| ==> more[j] == sides[j];
    var i :| FirstMet(sides, k, i) && sides[i].chain == t.chain && sides[i].address == t.address;
    assert FirstMet(more, k, i);
    NamedLast(sides, k, |sides|);
    assert FirstNamed(more, k, |sides|);
  }

  /** Where no side of the key is the first to be named, none is named. */
  lemma {:induction false} NamedLast(sides: seq<Side>, k: string, n: nat)
    requires n <= |sides| && forall i :: !FirstNamed(sides, k, i)
    ensures forall j :: 0 <= j < n && sides[j].Key() == k ==> sides[j].symbol == ""
    decreases n
  {
    if n > 0 {
      NamedLast(sides, k, n - 1);
      assert !FirstNamed(sides, k, n - 1);
    }
  }

  lemma MetFirst(sides: seq<Side>, s: Side)
    requires forall i :: 0 <= i < |sides| ==> sides[i].Key() != s.Key()
    ensures IsMet(sides + [s], s.Key(), TokenAgg(s.chain, s.address, s.symbol))
  {
    var more, k := sides + [s], s.Key();
    assert forall j :: 0 <= j < |sides| ==> more[j] == sides[j];
    assert FirstMet(more, k, |sides|);
    assert s.symbol != "" ==> FirstNamed(more, k, |sides|);
  }

  lemma TouchMeets(tokens: map<string, TokenAgg>, sides: seq<Side>, s: Side)
    requires s.address != "" && TokensMet(sides, tokens)
    ensures TokensMet(sides + [s], Touch(tokens, s.chain, s.address, s.symbol))
  {
    var touched, k := Touch(tokens, s.chain, s.address, s.symbol), s.Key();
    forall x | x in touched ensures IsMet(sides + [s], x, touched[x]) {
      if x == k && x !in tokens {
        MetFirst(sides, s);
      } else if x == k && tokens[k].seedSymbol == "" && s.symbol != "" {
        NowNamed(sides, s, tokens[k]);
      } else {
        StillMet(sides, s, x, tokens[x]);
      }
    }
  }

  /** Each token has the chain and address it was first met with, and the first symbol it came with. */
  lemma {:induction false} DerivedMeets(trades: seq<DexTrade>)
    ensures TokensMet(AllMet(trades), Derived(trades).tokens)
    decreases |trades|
  {
    if |trades| > 0 {
      var rest, tr := DropLast(trades), Last(trades);
      DerivedMeets(rest);
      var bought, sold := Side(tr.chain, tr.boughtAddress, tr.boughtSymbol), Side(tr.chain, tr.soldAddress, tr.soldSymbol);
      var tokens, sides := Derived(rest).tokens, AllMet(rest);
      if tr.boughtAddress != "" {
        TouchMeets(tokens, sides, bought);
        tokens, sides := Touch(tokens, tr.chain, tr.boughtAddress, tr.boughtSymbol), sides + [bought];
      }
      if tr.soldAddress != "" {
        TouchMeets(tokens, sides, sold);
        sides := sides + [sold];
      }
      assert AllMet(trades) == sides;
    }
  }

  // ---- The purchases ----

  /** One trade gives its trader its bought side, if it has one. */
  lemma OnePurchase(tr: DexTrade, address: string)
    ensures tr.trader == address && tr.boughtAddress != "" ==>
      BoughtBy([tr], address) == [WalletTokenTrade(tr.chain + ":" + tr.boughtAddress, tr.tradeValueUSD)]
    ensures !(tr.trader == address && tr.boughtAddress != "") ==> BoughtBy([tr], address) == []
  {
    assert DropLast([tr]) == [] && Last([tr]) == tr;
  }

  /** Purchases add up over any split of the seed. */
  lemma {:induction false} PurchasesAdd(x: seq<DexTrade>, y: seq<DexTrade>, address: string)
    ensures BoughtBy(x + y, address) == BoughtBy(x, address) + BoughtBy(y, address)
    decreases |y|
  {
    if |y| == 0 {
      assert x + y == x;
    } else {
      assert DropLast(x + y) == x + DropLast(y) && Last(x + y) == Last(y);
      PurchasesAdd(x, DropLast(y), address);
    }
  }

  function SidesIn(trades: seq<DexTrade>): set<string>
  {
    set tr, k | tr in trades && k in SidesOf(tr) :: k
  }

  lemma SidesOfLast(trades: seq<DexTrade>)
    requires |trades| > 0
    ensures SidesIn(trades) == SidesIn(DropLast(trades)) + SidesOf(Last(trades))
  {
    assert trades == DropLast(trades) + [Last(trades)];
  }

  /** One token per side traded. */
  lemma {:induction false} DerivedTokens(trades: seq<DexTrade>)
    ensures Derived(trades).tokens.Keys == SidesIn(trades)
    decreases |trades|
  {
    if |trades| > 0 {
      DerivedTokens(DropLast(trades));
      SidesOfLast(trades);
    }
  }

  /** `k` is the chain and address of a side the trade names. */
  predicate NamesSide(tr: DexTrade, k: string)
  {
    (tr.boughtAddress != "" && k == tr.chain + ":" + tr.boughtAddress) || (tr.soldAddress != "" && k == tr.chain + ":" + tr.soldAddress)
  }

  lemma TokenIffTraded(trades: seq<DexTrade>, k: string)
    ensures k in Derived(trades).tokens <==> exists tr :: tr in trades && NamesSide(tr, k)
  {
    DerivedTokens(trades);
    forall tr ensures NamesSide(tr, k) <==> k in SidesOf(tr) {
    }
  }

  /** A wallet per trader with exactly its own purchases and chains, last seen when it last traded; tokens named by their keys. */
  lemma {:induction false} DerivedMeans(trades: seq<DexTrade>)
    ensures Consistent(Derived(trades))
    ensures Derived(trades).wallets.Keys == set tr | tr in trades :: tr.trader
    ensures forall a :: a in Derived(trades).wallets ==>
      && Derived(trades).wallets[a].boughtTokens == BoughtBy(trades, a)
      && Derived(trades).wallets[a].chains == ChainsOf(trades, a)
      && IsLastTrade(trades, a, Derived(trades).wallets[a].lastTrade)
      && IsLastLabel(trades, a, Derived(trades).wallets[a].label_)
    decreases |trades|
  {
    if |trades| > 0 {
      DerivedMeans(DropLast(trades));
      AddTradeKeepsConsistent(Derived(DropLast(trades)), Last(trades));
      assert trades == DropLast(trades) + [Last(trades)];
    }
    forall a | a in Derived(trades).wallets
      ensures Derived(trades).wallets[a].boughtTokens == BoughtBy(trades, a) && Derived(trades).wallets[a].chains == ChainsOf(trades, a)
      ensures IsLastTrade(trades, a, Derived(trades).wallets[a].lastTrade) && IsLastLabel(trades, a, Derived(trades).wallets[a].label_)
    {
      DerivedPurchases(trades, a);
      DerivedChains(trades, a);
      DerivedLastTrade(trades, a);
      DerivedLabel(trades, a);
    }
  }

  // ---- The cut ----

  datatype Ranking = Ranking(addr: string, value: real)

  function AddrOf(r: Ranking): string
  {
    r.addr
  }

  function ValueOfRanking(r: Ranking): real
  {
    r.value
  }

  ghost function BoughtValue(wallets: map<string, WalletAgg>, a: string): real
  {
    if a in wallets then Total(wallets[a].boughtTokens) else 0.0
  }

  /** `a` is kept before `b`: it bought more, or the same and comes first. */
  ghost predicate KeptBefore(wallets: map<string, WalletAgg>, a: string, b: string)
  {
    BoughtValue(wallets, a) > BoughtValue(wallets, b) || (BoughtValue(wallets, a) == BoughtValue(wallets, b) && Less(a, b))
  }

  ghost predicate TopWallets(wallets: map<string, WalletAgg>, max: int, kept: set<string>)
  {
    && kept <= wallets.Keys && |kept| == max
    && forall a, b :: a in kept && b in wallets && b !in kept ==> KeptBefore(wallets, a, b)
  }

  /** The cut keeps the `max` wallets that bought most, and the tokens those wallets bought. */
  ghost predicate IsLimited(u: Universe, max: int, v: Universe)
  {
    if max <= 0 || |u.wallets| <= max then v == u
    else
      && TopWallets(u.wallets, max, v.wallets.Keys)
      && (forall a :: a in v.wallets ==> a in u.wallets && v.wallets[a] == u.wallets[a])
      && (forall k :: k in v.tokens <==> k in u.tokens && exists a :: a in v.wallets && k in Keys(v.wallets[a].boughtTokens))
      && (forall k :: k in v.tokens ==> k in u.tokens && v.tokens[k] == u.tokens[k])
  }

  /** Some purchase of a wallet of the universe is of the token. */
  ghost predicate BoughtByKept(u: Universe, k: string)
  {
    exists a, i :: a in u.wallets && 0 <= i < |u.wallets[a].boughtTokens| && u.wallets[a].boughtTokens[i].tokenKey == k
  }

  /** The cut in amounts: whoever is kept bought more than whoever is not, or as much and has the smaller address. */
  lemma LimitMeans(u: Universe, max: int, v: Universe)
    requires IsLimited(u, max, v)
    ensures max <= 0 || |u.wallets| <= max ==> v == u
    ensures max > 0 && |u.wallets| > max ==> |v.wallets.Keys| == max && v.wallets.Keys <= u.wallets.Keys
    ensures forall a, b :: a in v.wallets && b in u.wallets && b !in v.wallets ==>
      var x, y := Total(u.wallets[a].boughtTokens), Total(u.wallets[b].boughtTokens);
      x > y || (x == y && Less(a, b))
    ensures forall a :: a in v.wallets ==> a in u.wallets && v.wallets[a] == u.wallets[a]
    ensures forall k :: k in v.tokens ==> k in u.tokens && v.tokens[k] == u.tokens[k]
    ensures max > 0 && |u.wallets| > max ==> forall k :: k in u.tokens ==> (k in v.tokens <==> BoughtByKept(v, k))
  {
    forall a, i | a in v.wallets && 0 <= i < |v.wallets[a].boughtTokens|
      ensures v.wallets[a].boughtTokens[i].tokenKey in Keys(v.wallets[a].boughtTokens)
    {
      assert v.wallets[a].boughtTokens[i] in v.wallets[a].boughtTokens;
    }
    forall a, b | a in v.wallets && b in u.wallets && b !in v.wallets ensures a in u.wallets && KeptBefore(u.wallets, a, b) {
      assert max > 0 && |u.wallets| > max;
    }
  }

  lemma KeptOneWay(wallets: map<string, WalletAgg>, a: string, b: string)
    ensures !(KeptBefore(wallets, a, b) && KeptBefore(wallets, b, a))
  {
    LessIsStrictTotal();
  }

  lemma TopIsUnique(wallets: map<string, WalletAgg>, max: int, k1: set<string>, k2: set<string>)
    requires TopWallets(wallets, max, k1) && TopWallets(wallets, max, k2)
    ensures k1 == k2
  {
    if k1 <= k2 {
      SubsetSize(k1, k2);
    } else if k2 <= k1 {
      SubsetSize(k2, k1);
    } else {
      var a :| a in k1 && a !in k2;
      var b :| b in k2 && b !in k1;
      KeptOneWay(wallets, a, b);
    }
  }

  /** Two cuts of one universe are the same cut, whatever order its maps were walked in. */
  lemma LimitIsDetermined(u: Universe, max: int, v1: Universe, v2: Universe)
    requires IsLimited(u, max, v1) && IsLimited(u, max, v2)
    ensures v1 == v2
  {
    if max > 0 && |u.wallets| > max {
      TopIsUnique(u.wallets, max, v1.wallets.Keys, v2.wallets.Keys);
      assert v1.wallets == v2.wallets;
      assert v1.tokens.Keys == v2.tokens.Keys;
      assert v1.tokens == v2.tokens;
    }
  }

  lemma LimitKeepsConsistent(u: Universe, max: int, v: Universe)
    requires Consistent(u) && IsLimited(u, max, v)
    ensures Consistent(v)
  {
    if max > 0 && |u.wallets| > max {
      forall a | a in v.wallets ensures Keys(v.wallets[a].boughtTokens) <= v.tokens.Keys {
        assert Keys(u.wallets[a].boughtTokens) <= u.tokens.Keys;
      }
    }
  }

  method TotalOf(bought: Trades) returns (total: real)
    ensures total == Total(bought)
  {
    total := 0.0;
    for i := 0 to |bought|
      invariant total == Total(bought[..i])
    {
      assert DropLast(bought[..i + 1]) == bought[..i];
      total := total + bought[i].tradeValueUSD;
    }
    assert bought[..|bought|] == bought;
  }

  /** The wallets in the order of the cut. */
  method RankWallets(wallets: map<string, WalletAgg>) returns (order: seq<Ranking>)
    ensures |order| == |wallets| && Elems(Map(order, AddrOf)) == wallets.Keys && Distinct(Map(order, AddrOf))
    ensures forall i, j :: 0 <= i < j < |order| ==> KeptBefore(wallets, order[i].addr, order[j].addr)
  {
    var listed: seq<Ranking> := [];
    var todo := wallets.Keys;
    while todo != {}
      invariant todo <= wallets.Keys
      invariant Elems(Map(listed, AddrOf)) == wallets.Keys - todo && Distinct(Map(listed, AddrOf))
      invariant forall i :: 0 <= i < |listed| ==> listed[i].value == BoughtValue(wallets, listed[i].addr)
    {
      var a :| a in todo;
      var total := TotalOf(wallets[a].boughtTokens);
      AppendNew(Map(listed, AddrOf), a);
      assert Map(listed + [Ranking(a, total)], AddrOf) == Map(listed, AddrOf) + [a];
      listed := listed + [Ranking(a, total)];
      todo := todo - {a};
    }
    RankedIsStrictWeak(ValueOfRanking, NoRank<Ranking>(), AddrOf);
    order := SortSlice(listed, Ranked(ValueOfRanking, NoRank<Ranking>(), AddrOf));
    RankedOrder(wallets, listed, order);
  }

  lemma RankedOrder(wallets: map<string, WalletAgg>, listed: seq<Ranking>, order: seq<Ranking>)
    requires Elems(Map(listed, AddrOf)) == wallets.Keys && Distinct(Map(listed, AddrOf))
    requires forall i :: 0 <= i < |listed| ==> listed[i].value == BoughtValue(wallets, listed[i].addr)
    requires multiset(order) == multiset(listed)
    requires SortedBy(Ranked(ValueOfRanking, NoRank<Ranking>(), AddrOf), order)
    ensures |order| == |wallets| && Elems(Map(order, AddrOf)) == wallets.Keys && Distinct(Map(order, AddrOf))
    ensures forall i, j :: 0 <= i < j < |order| ==> KeptBefore(wallets, order[i].addr, order[j].addr)
  {
    PermutationFacts(listed, order);
    MapOfPermutation(listed, order, AddrOf);
    PermutationFacts(Map(listed, AddrOf), Map(order, AddrOf));
    DistinctSize(Map(listed, AddrOf));
    assert Elems(Map(order, AddrOf)) == Elems(Map(listed, AddrOf));
    var less := Ranked(ValueOfRanking, NoRank<Ranking>(), AddrOf);
    forall i, j | 0 <= i < j < |order| ensures KeptBefore(wallets, order[i].addr, order[j].addr) {
      assert order[i] in listed && order[j] in listed;
      assert Map(order, AddrOf)[i] != Map(order, AddrOf)[j];
      LessIsTotal(order[i].addr, order[j].addr);
      assert !less(order[j], order[i]);
      assert ValueOfRanking(order[i]) == order[i].value && ValueOfRanking(order[j]) == order[j].value;
      assert AddrOf(order[i]) == order[i].addr && AddrOf(order[j]) == order[j].addr;
    }
  }

  /** Keeps the tokens the kept wallets bought, as far as the universe has them. */
  method TokensOf(kept: map<string, WalletAgg>, tokens: map<string, TokenAgg>) returns (keptTokens: map<string, TokenAgg>)
    ensures forall k :: k in keptTokens <==> k in tokens && exists a :: a in kept && k in Keys(kept[a].boughtTokens)
    ensures forall k :: k in keptTokens ==> k in tokens && keptTokens[k] == tokens[k]
  {
    keptTokens := map[];
    var todo := kept.Keys;
    while todo != {}
      invariant todo <= kept.Keys
      invariant forall k :: k in keptTokens <==> k in tokens && exists a :: a in kept && a !in todo && k in Keys(kept[a].boughtTokens)
      invariant forall k :: k in keptTokens ==> k in tokens && keptTokens[k] == tokens[k]
    {
      var a :| a in todo;
      var more := map k | k in Keys(kept[a].boughtTokens) && k in tokens :: tokens[k];
      keptTokens := keptTokens + more;
      todo := todo - {a};
    }
  }

  /** The cut of a universe, whose maps are walked in any order. */
  method LimitUniverse(u: Universe, max: int) returns (v: Universe)
    ensures IsLimited(u, max, v)
  {
    if max <= 0 || |u.wallets| <= max {
      return u;
    }
    var order := RankWallets(u.wallets);
    var first := Map(order[..max], AddrOf);
    var names := Elems(first);
    FirstAreTop(u.wallets, order, max);
    var kept := map a | a in names && a in u.wallets :: u.wallets[a];
    assert kept.Keys == names;
    var keptTokens := TokensOf(kept, u.tokens);
    v := Universe(kept, keptTokens);
  }

  lemma FirstAreTop(wallets: map<string, WalletAgg>, order: seq<Ranking>, max: nat)
    requires max < |order| && Elems(Map(order, AddrOf)) == wallets.Keys && Distinct(Map(order, AddrOf))
    requires forall i, j :: 0 <= i < j < |order| ==> KeptBefore(wallets, order[i].addr, order[j].addr)
    ensures TopWallets(wallets, max, Elems(Map(order[..max], AddrOf)))
  {
    var all, first := Map(order, AddrOf), Map(order[..max], AddrOf);
    assert first == all[..max];
    DistinctSize(first);
    forall a | a in first ensures a in wallets {
      assert a in all && a in Elems(all);
    }
    assert forall l :: 0 <= l < |first| ==> all[l] == first[l] && all[l] in Elems(first);
    forall a, b | a in Elems(first) && b in wallets && b !in Elems(first) ensures KeptBefore(wallets, a, b) {
      assert b in Elems(all);
      var i :| 0 <= i < |first| && first[i] == a;
      var j :| 0 <= j < |all| && all[j] == b;
    }
  }
}
