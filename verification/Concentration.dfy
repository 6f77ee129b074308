/** How concentrated a wallet's bought value is: the Herfindahl index over its tokens. */
module Concentration {
  import opened Reals

  datatype WalletTokenTrade = WalletTokenTrade(tokenKey: string, tradeValueUSD: real)

  type Trades = seq<WalletTokenTrade>

  function DropLast<T>(xs: seq<T>): seq<T>
    requires |xs| > 0
  {
    xs[..|xs| - 1]
  }

  function Last<T>(xs: seq<T>): T
    requires |xs| > 0
  {
    xs[|xs| - 1]
  }

  ghost function Total(bought: Trades): real
  {
    if |bought| == 0 then 0.0 else Total(DropLast(bought)) + Last(bought).tradeValueUSD
  }

  /** The value bought of the tokens in `keys`. */
  ghost function ValueIn(bought: Trades, keys: set<string>): real
  {
    if |bought| == 0 then 0.0
    else ValueIn(DropLast(bought), keys) + (if Last(bought).tokenKey in keys then Last(bought).tradeValueUSD else 0.0)
  }

  ghost function TokenTotal(bought: Trades, key: string): real
  {
    ValueIn(bought, {key})
  }

  /** Each trade of a token in `keys`, weighted by that token's total in `all`. */
  ghost function WeightedIn(bought: Trades, keys: set<string>, all: Trades): real
  {
    if |bought| == 0 then 0.0
    else WeightedIn(DropLast(bought), keys, all) + (if Last(bought).tokenKey in keys then Weight(Last(bought), all) else 0.0)
  }

  ghost function Weight(b: WalletTokenTrade, all: Trades): real
  {
    b.tradeValueUSD * TokenTotal(all, b.tokenKey)
  }

  /** Every trade weighted by its token's total: the sum over tokens of the squared token totals. */
  ghost function Weighted(bought: Trades, all: Trades): real
  {
    if |bought| == 0 then 0.0 else Weighted(DropLast(bought), all) + Weight(Last(bought), all)
  }

  function Keys(bought: Trades): set<string>
  {
    set b | b in bought :: b.tokenKey
  }

  /** The Herfindahl index: the sum over tokens of the squared share of the value bought. */
  ghost function Herfindahl(bought: Trades): real
  {
    if Total(bought) <= 0.0 then 0.0 else OverSquare(Weighted(bought, bought), Total(bought))
  }

  ghost function OverSquare(w: real, total: real): real
    requires total > 0.0
  {
    w / total / total
  }

  // ---- The key sets ----

  lemma {:induction false} DisjointKeys(bought: Trades, a: set<string>, b: set<string>, all: Trades)
    requires a !! b
    ensures ValueIn(bought, a + b) == ValueIn(bought, a) + ValueIn(bought, b)
    ensures WeightedIn(bought, a + b, all) == WeightedIn(bought, a, all) + WeightedIn(bought, b, all)
    decreases |bought|
  {
    if |bought| > 0 {
      DisjointKeys(DropLast(bought), a, b, all);
    }
  }

  lemma {:induction false} OneKeyWeighted(bought: Trades, key: string, all: Trades)
    ensures WeightedIn(bought, {key}, all) == TokenTotal(bought, key) * TokenTotal(all, key)
    decreases |bought|
  {
    if |bought| > 0 {
      OneKeyWeighted(DropLast(bought), key, all);
      if Last(bought).tokenKey == key {
        Distribute(TokenTotal(DropLast(bought), key), Last(bought).tradeValueUSD, TokenTotal(bought, key), TokenTotal(all, key));
      }
    }
  }

  lemma {:induction false} OneMoreKey(bought: Trades, keys: set<string>, key: string, more: set<string>)
    requires key !in keys && more == keys + {key}
    ensures ValueIn(bought, more) == ValueIn(bought, keys) + TokenTotal(bought, key)
    ensures WeightedIn(bought, more, bought) == WeightedIn(bought, keys, bought) + TokenTotal(bought, key) * TokenTotal(bought, key)
  {
    DisjointKeys(bought, keys, {key}, bought);
    OneKeyWeighted(bought, key, bought);
  }

  lemma {:induction false} AllKeys(bought: Trades, keys: set<string>, all: Trades)
    requires Keys(bought) <= keys
    ensures ValueIn(bought, keys) == Total(bought)
    ensures WeightedIn(bought, keys, all) == Weighted(bought, all)
    decreases |bought|
  {
    if |bought| > 0 {
      KeysOfLast(bought);
      AllKeys(DropLast(bought), keys, all);
    }
  }

  lemma KeysOfLast(bought: Trades)
    requires |bought| > 0
    ensures Keys(bought) == Keys(DropLast(bought)) + {Last(bought).tokenKey}
  {
    assert bought == DropLast(bought) + [Last(bought)];
  }

  lemma NoKeys(bought: Trades, all: Trades)
    ensures WeightedIn(bought, {}, all) == 0.0 && ValueIn(bought, {}) == 0.0
  {
  }

  lemma NoTrades(bought: Trades, key: string)
    requires key !in Keys(bought)
    ensures TokenTotal(bought, key) == 0.0
  {
    if |bought| > 0 {
      KeysOfLast(bought);
      NoTrades(DropLast(bought), key);
    }
  }

  // ---- What the sums are ----

  /** Totals add up over any split of the trades, and one trade counts its own value, under its own token. */
  lemma {:induction false} TotalsAdd(a: Trades, b: Trades, keys: set<string>)
    ensures Total(a + b) == Total(a) + Total(b) && ValueIn(a + b, keys) == ValueIn(a, keys) + ValueIn(b, keys)
    ensures forall x: WalletTokenTrade :: Total([x]) == x.tradeValueUSD
    ensures forall x: WalletTokenTrade :: ValueIn([x], keys) == if x.tokenKey in keys then x.tradeValueUSD else 0.0
    decreases |b|
  {
    assert forall x: WalletTokenTrade :: DropLast([x]) == [] && Last([x]) == x;
    if |b| == 0 {
      assert a + b == a;
    } else {
      assert DropLast(a + b) == a + DropLast(b) && Last(a + b) == Last(b);
      TotalsAdd(a, DropLast(b), keys);
    }
  }

  /** The squared shares of the tokens listed in `keys`, summed. */
  ghost function SquaredShares(bought: Trades, keys: seq<string>): real
    requires Total(bought) > 0.0
  {
    if |keys| == 0 then 0.0
    else
      var share := TokenTotal(bought, Last(keys)) / Total(bought);
      SquaredShares(bought, DropLast(keys)) + share * share
  }

  ghost predicate ListsOnce(keys: seq<string>, of: set<string>)
  {
    && (forall i, j :: 0 <= i < j < |keys| ==> keys[i] != keys[j])
    && forall k :: k in keys <==> k in of
  }

  lemma DropListed(keys: seq<string>, of: set<string>)
    requires ListsOnce(keys, of) && |keys| > 0
    ensures ListsOnce(DropLast(keys), of - {Last(keys)}) && Last(keys) in of
  {
    assert keys == DropLast(keys) + [Last(keys)];
  }

  lemma {:induction false} SharesOfListed(bought: Trades, keys: seq<string>, of: set<string>)
    requires Total(bought) > 0.0 && ListsOnce(keys, of)
    ensures SquaredShares(bought, keys) == OverSquare(WeightedIn(bought, of, bought), Total(bought))
    decreases |keys|
  {
    if |keys| == 0 {
      assert of == {};
      NoKeys(bought, bought);
      NothingOverSquare(Total(bought));
    } else {
      var k := Last(keys);
      var rest := of - {k};
      DropListed(keys, of);
      SharesOfListed(bought, DropLast(keys), rest);
      OneMoreShare(bought, rest, k, of, WeightedIn(bought, rest, bought), TokenTotal(bought, k), WeightedIn(bought, of, bought), Total(bought));
    }
  }

  /**
   The index is the sum of the squared shares, the bought tokens listed once each
   in any order, and 0 when nothing of value was bought.
   */
  lemma HerfindahlIsSquaredShares(bought: Trades, keys: seq<string>)
    requires ListsOnce(keys, Keys(bought))
    ensures Total(bought) > 0.0 ==> Herfindahl(bought) == SquaredShares(bought, keys)
    ensures Total(bought) <= 0.0 ==> Herfindahl(bought) == 0.0
  {
    if Total(bought) > 0.0 {
      SharesOfListed(bought, keys, Keys(bought));
      AllKeys(bought, Keys(bought), bought);
    }
  }

  // ---- The computation ----

  method TotalsByToken(bought: Trades) returns (byToken: map<string, real>, total: real)
    ensures total == Total(bought) && byToken.Keys == Keys(bought)
    ensures forall k :: k in byToken ==> byToken[k] == TokenTotal(bought, k)
  {
    byToken, total := map[], 0.0;
    for i := 0 to |bought|
      invariant total == Total(bought[..i]) && byToken.Keys == Keys(bought[..i])
      invariant forall k :: k in byToken ==> byToken[k] == TokenTotal(bought[..i], k)
    {
      var b := bought[i];
      assert DropLast(bought[..i + 1]) == bought[..i];
      KeysOfLast(bought[..i + 1]);
      if b.tokenKey !in byToken {
        NoTrades(bought[..i], b.tokenKey);
      }
      byToken := byToken[b.tokenKey := (if b.tokenKey in byToken then byToken[b.tokenKey] else 0.0) + b.tradeValueUSD];
      total := total + b.tradeValueUSD;
    }
    assert bought[..|bought|] == bought;
  }

  /** The sum of the squared shares, in whatever order the map of tokens is walked. */
  method ConcentrationRaw(bought: Trades) returns (hhi: real)
    ensures hhi == Herfindahl(bought)
  {
    hhi := 0.0;
    if |bought| == 0 {
      return;
    }
    var byToken, total := TotalsByToken(bought);
    if total <= 0.0 {
      return;
    }
    var todo := byToken.Keys;
    NoKeys(bought, bought);
    assert byToken.Keys - todo == {};
    NothingOverSquare(total);
    while todo != {}
      invariant todo <= byToken.Keys
      invariant hhi == OverSquare(WeightedIn(bought, byToken.Keys - todo, bought), total)
    {
      var k :| k in todo;
      var share := byToken[k] / total;
      ghost var done, more := byToken.Keys - todo, byToken.Keys - (todo - {k});
      OneMoreShare(bought, done, k, more, WeightedIn(bought, done, bought), byToken[k], WeightedIn(bought, more, bought), total);
      hhi := hhi + share * share;
      todo := todo - {k};
    }
    AllKeys(bought, byToken.Keys - todo, bought);
  }

  lemma {:induction false} OneMoreShare(
    bought: Trades, keys: set<string>, key: string, more: set<string>, w: real, v: real, w': real, total: real)
    requires total > 0.0 && key !in keys && more == keys + {key}
    requires w == WeightedIn(bought, keys, bought) && v == TokenTotal(bought, key) && w' == WeightedIn(bought, more, bought)
    ensures OverSquare(w', total) == OverSquare(w, total) + (v / total) * (v / total)
  {
    assert w' == w + v * v by { OneMoreKey(bought, keys, key, more); }
    AddShare(w, v, total, w');
  }

  lemma NothingOverSquare(total: real)
    requires total > 0.0
    ensures OverSquare(0.0, total) == 0.0
  {
  }

  lemma AddShare(w: real, v: real, total: real, w': real)
    requires total > 0.0 && w' == w + v * v
    ensures OverSquare(w, total) + (v / total) * (v / total) == OverSquare(w', total)
  {
    DivideSum(w, v * v, w', total);
    DivideSum(w / total, v * v / total, w' / total, total);
    SquareOfRatio(v, total);
  }

  lemma SquareOfRatio(v: real, total: real)
    requires total > 0.0
    ensures (v / total) * (v / total) == v * v / total / total
  {
    var s := v / total;
    assert v * s * total == v * v;
    assert v * v / total == v * s;
    assert s * s * total == v * s;
  }

  // ---- Bounds ----

  ghost predicate NonNegative(bought: Trades)
  {
    forall i :: 0 <= i < |bought| ==> bought[i].tradeValueUSD >= 0.0
  }

  lemma {:induction false} PartOfTotal(bought: Trades, keys: set<string>)
    requires NonNegative(bought)
    ensures 0.0 <= ValueIn(bought, keys) <= Total(bought)
    decreases |bought|
  {
    if |bought| > 0 {
      PartOfTotal(DropLast(bought), keys);
    }
  }

  /** Twice the even-split line lies below the squares, token by token. */
  ghost predicate AboveTangent(w: real, v: real, n: real, c: real)
  {
    w - 2.0 * c * v + c * c * n >= 0.0
  }

  lemma TangentStep(w: real, v: real, n: real, c: real, t: real, w': real, v': real, n': real)
    requires AboveTangent(w, v, n, c)
    requires w' == w + t * t && v' == v + t && n' == n + 1.0
    ensures AboveTangent(w', v', n', c)
  {
    SquareNonNegative(t - c);
    assert (t - c) * (t - c) == t * t - 2.0 * c * t + c * c;
    assert 2.0 * c * v' == 2.0 * c * v + 2.0 * c * t;
    assert c * c * n' == c * c * n + c * c;
  }

  lemma TangentAtMean(w: real, total: real, n: real)
    requires total > 0.0 && n >= 1.0
    requires AboveTangent(w, total, n, total / n)
    ensures OverSquare(w, total) >= 1.0 / n
  {
    var c := total / n;
    assert c * n == total;
    assert c * c * n == c * total;
    assert w >= c * total;
    AtLeastRatio(w, c, total);
    assert c / total == 1.0 / n;
    AtLeastDivided(w / total, c, total);
  }

  lemma AtLeastDivided(a: real, c: real, total: real)
    requires total > 0.0 && a >= c
    ensures a / total >= c / total
  {
  }

  lemma RatioToTotal(w: real, total: real)
    requires total > 0.0
    ensures w <= total * total ==> w / total <= total
    ensures w < total * total ==> w / total < total
    ensures w == total * total ==> w / total == total
  {
    var q := w / total;
    assert q * total == w;
    if q >= total {
      Distribute(total, q - total, q, total);
      if q > total {
        ProductPositive(q - total, total);
      }
    }
  }

  lemma {:induction false} EvenSplitIsLeast(bought: Trades, keys: set<string>, c: real)
    ensures AboveTangent(WeightedIn(bought, keys, bought), ValueIn(bought, keys), |keys| as real, c)
    decreases |keys|
  {
    if keys == {} {
      NoKeys(bought, bought);
      NothingAboveTangent(c);
    } else {
      var k :| k in keys;
      var rest := keys - {k};
      EvenSplitIsLeast(bought, rest, c);
      OneMoreKey(bought, rest, k, keys);
      TangentStep(WeightedIn(bought, rest, bought), ValueIn(bought, rest), |rest| as real, c, TokenTotal(bought, k),
                  WeightedIn(bought, keys, bought), ValueIn(bought, keys), |keys| as real);
    }
  }

  lemma NothingAboveTangent(c: real)
    ensures AboveTangent(0.0, 0.0, 0.0, c)
  {
  }

  ghost predicate SomeTokenHoldsAll(all: Trades)
  {
    exists k :: TokenTotal(all, k) == Total(all)
  }

  /** `w` is at most the product of `r` and `T`, and `strict` ones are below it. */
  ghost predicate AtMostProduct(w: real, r: real, T: real, strict: bool)
  {
    w <= r * T && (strict ==> w < r * T)
  }

  lemma WeighStep(w: real, r: real, v: real, t: real, T: real, strict: bool, w': real, r': real, strict': bool)
    requires AtMostProduct(w, r, T, strict) && v >= 0.0 && t <= T
    requires w' == w + v * t && r' == r + v
    requires strict' ==> strict || (v > 0.0 && t < T)
    ensures AtMostProduct(w', r', T, strict')
  {
    Distribute(r, v, r', T);
    Distribute(t, T - t, T, v);
    if v > 0.0 && t < T {
      ProductPositive(v, T - t);
    }
  }

  /** Every trade weighs at most the whole total, and less when no token holds everything. */
  lemma {:induction false} WeightedAtMost(bought: Trades, all: Trades)
    requires NonNegative(bought) && NonNegative(all)
    ensures AtMostProduct(Weighted(bought, all), Total(bought), Total(all), !SomeTokenHoldsAll(all) && Total(bought) > 0.0)
    decreases |bought|
  {
    var apart := !SomeTokenHoldsAll(all);
    if |bought| > 0 {
      var b, rest := Last(bought), DropLast(bought);
      WeightedAtMost(rest, all);
      PartOfTotal(all, {b.tokenKey});
      PartOfTotal(rest, {});
      assert apart ==> TokenTotal(all, b.tokenKey) != Total(all);
      WeighStep(Weighted(rest, all), Total(rest), b.tradeValueUSD, TokenTotal(all, b.tokenKey), Total(all), apart && Total(rest) > 0.0,
                Weighted(bought, all), Total(bought), apart && Total(bought) > 0.0);
    }
  }

  ghost predicate IsProduct(w: real, r: real, t: real)
  {
    w == r * t
  }

  lemma ProductStep(w: real, r: real, v: real, t: real, w': real, r': real)
    requires IsProduct(w, r, t) && w' == w + v * t && r' == r + v
    ensures IsProduct(w', r', t)
  {
    Distribute(r, v, r', t);
  }

  lemma {:induction false} OneTokenWeighsAll(bought: Trades, k: string, all: Trades)
    requires NonNegative(bought) && TokenTotal(bought, k) == Total(bought)
    ensures IsProduct(Weighted(bought, all), Total(bought), TokenTotal(all, k))
    decreases |bought|
  {
    if |bought| > 0 {
      var b, rest := Last(bought), DropLast(bought);
      PartOfTotal(rest, {k});
      assert b.tokenKey == k || b.tradeValueUSD == 0.0;
      OneTokenWeighsAll(rest, k, all);
      WeightOf(b, k, all);
      ProductStep(Weighted(rest, all), Total(rest), b.tradeValueUSD, TokenTotal(all, k), Weighted(bought, all), Total(bought));
    }
  }

  lemma WeightOf(b: WalletTokenTrade, k: string, all: Trades)
    requires b.tokenKey == k || b.tradeValueUSD == 0.0
    ensures Weight(b, all) == b.tradeValueUSD * TokenTotal(all, k)
  {
  }

  /**
   With k distinct tokens bought, the index lies between 1/k and 1, and is 1
   exactly when one token holds all the value.
   */
  lemma HerfindahlBounds(bought: Trades)
    requires NonNegative(bought) && Total(bought) > 0.0
    ensures |Keys(bought)| >= 1
    ensures 1.0 / |Keys(bought)| as real <= Herfindahl(bought) <= 1.0
    ensures Herfindahl(bought) == 1.0 <==> SomeTokenHoldsAll(bought)
  {
    AllKeys(bought, Keys(bought), bought);
    assert |bought| > 0 && Last(bought).tokenKey in Keys(bought);
    EvenSplitIsLeast(bought, Keys(bought), Total(bought) / |Keys(bought)| as real);
    WeightedAtMost(bought, bought);
    if SomeTokenHoldsAll(bought) {
      var k :| TokenTotal(bought, k) == Total(bought);
      OneTokenWeighsAll(bought, k, bought);
    }
    BoundsFromWeights(Weighted(bought, bought), Total(bought), |Keys(bought)| as real, SomeTokenHoldsAll(bought));
  }

  lemma BoundsFromWeights(w: real, total: real, n: real, whole: bool)
    requires total > 0.0 && n >= 1.0
    requires AboveTangent(w, total, n, total / n)
    requires AtMostProduct(w, total, total, !whole)
    requires whole ==> IsProduct(w, total, total)
    ensures 1.0 / n <= OverSquare(w, total) <= 1.0
    ensures OverSquare(w, total) == 1.0 <==> whole
  {
    TangentAtMean(w, total, n);
    RatioToTotal(w, total);
    RatioToOne(w / total, total);
  }
}
