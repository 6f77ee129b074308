/** The requests a run makes, and the string that names a (wallet, chain) pair between stages. */
module Calls {

  /** One request body per constructor; the date range, timeframe and chain "all" are constants of the run. */
  datatype Request =
    | DexTrades
    | PnLSummary(address: string)
    | RelatedWallets(address: string, chain: string)
    | FlowIntelligence(chain: string, token: string)
    | TokenInformation(chain: string, token: string)
    | TokenOHLCV(chain: string, token: string)

  function WalletChainKey(address: string, chain: string): string
  {
    address + "|" + chain
  }

  function BeforeBar(s: string): (before: string)
    ensures before <= s && '|' !in before
    ensures if '|' in s then |before| < |s| && s[|before|] == '|' else before == s
  {
    if |s| == 0 || s[0] == '|' then "" else [s[0]] + BeforeBar(s[1..])
  }

  /** Splits at the first bar; a key without one gives two empty parts. */
  function SplitWalletChainKey(key: string): (string, string)
  {
    var before := BeforeBar(key);
    if |before| == |key| then ("", "") else (before, key[|before| + 1..])
  }

  /** The worker gets back the pair it was given exactly when the address holds no bar. */
  lemma SplitUndoesJoinIff(address: string, chain: string)
    ensures SplitWalletChainKey(WalletChainKey(address, chain)) == (address, chain) <==> '|' !in address
  {
    var key := WalletChainKey(address, chain);
    var before := BeforeBar(key);
    assert key[|address|] == '|' && key[..|address|] == address && key[|address| + 1..] == chain;
    assert before == key[..|before|];
    assert key[|before|] == '|';
    if '|' !in address {
      assert forall i :: 0 <= i < |address| ==> key[i] == address[i] && address[i] in address;
      assert |before| >= |address|;
      forall i | 0 <= i < |before| ensures key[i] != '|' {
        assert before[i] in before;
      }
    }
  }

  /** A key with a bar is the join of the parts it splits into, and the first part holds no bar. */
  lemma JoinUndoesSplit(key: string)
    requires '|' in key
    ensures var (a, c) := SplitWalletChainKey(key); WalletChainKey(a, c) == key && '|' !in a
  {
    var before := BeforeBar(key);
    assert key == before + [key[|before|]] + key[|before| + 1..];
  }

  lemma JoinIsInjective(a: string, c: string, b: string, d: string)
    requires '|' !in a && '|' !in b
    requires WalletChainKey(a, c) == WalletChainKey(b, d)
    ensures a == b && c == d
  {
    SplitUndoesJoinIff(a, c);
    SplitUndoesJoinIff(b, d);
  }
}
