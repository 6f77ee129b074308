/** The path and body of each request, and that no two requests share a cache key. */
module Bodies {
  import opened Calls
  import opened Canonical

  /** The pnl-summary window of a run. */
  datatype Dates = Dates(from: string, to: string)

  const MOVE_TIMEFRAME := "1h"
  const MOVE_DATES := Dates("2026-09-21", "2026-09-23")
  const FLOW_TIMEFRAME := "1d"

  function PathOf(r: Request): string
  {
    match r
    case DexTrades => "smart-money/dex-trades"
    case PnLSummary(_) => "profiler/address/pnl-summary"
    case RelatedWallets(_, _) => "profiler/address/related-wallets"
    case FlowIntelligence(_, _) => "tgm/flow-intelligence"
    case TokenInformation(_, _) => "tgm/token-information"
    case TokenOHLCV(_, _) => "tgm/token-ohlcv"
  }

  function DateBody(d: Dates): Json
  {
    Obj([Member("from", Str(d.from)), Member("to", Str(d.to))])
  }

  function TokenBody(chain: string, token: string, timeframe: string): seq<Member>
  {
    [Member("chain", Str(chain)), Member("token_address", Str(token)), Member("timeframe", Str(timeframe))]
  }

  function BodyOf(d: Dates, r: Request): Json
  {
    match r
    case DexTrades =>
      Obj([Member("chains", Arr([Str("all")])), Member("pagination", Obj([Member("page", Num("1")), Member("per_page", Num("1000"))]))])
    case PnLSummary(a) => Obj([Member("address", Str(a)), Member("chain", Str("all")), Member("date", DateBody(d))])
    case RelatedWallets(a, c) => Obj([Member("address", Str(a)), Member("chain", Str(c))])
    case FlowIntelligence(c, t) => Obj(TokenBody(c, t, FLOW_TIMEFRAME))
    case TokenInformation(c, t) => Obj(TokenBody(c, t, FLOW_TIMEFRAME))
    case TokenOHLCV(c, t) => Obj(TokenBody(c, t, MOVE_TIMEFRAME) + [Member("date", DateBody(MOVE_DATES))])
  }

  lemma BodyIsDecoded(d: Dates, r: Request)
    ensures BodyOf(d, r).Obj? && Decoded(BodyOf(d, r))
  {
    DatesAreDecoded(d);
    DatesAreDecoded(MOVE_DATES);
    var ms := BodyOf(d, r).members;
    KeysDiffer(d, r);
    forall i | 0 <= i < |ms| ensures DistinctMembers(ms[i].value) && LiteralsOk(ms[i].value) {
      if r == DexTrades {
        SeedIsDecoded(d);
      }
    }
  }

  lemma SeedIsDecoded(d: Dates)
    ensures forall i :: 0 <= i < 2 ==> DistinctMembers(BodyOf(d, DexTrades).members[i].value) && LiteralsOk(BodyOf(d, DexTrades).members[i].value)
  {
    var page := [Member("page", Num("1")), Member("per_page", Num("1000"))];
    assert "page"[0] == "per_page"[0] && |"page"| != |"per_page"|;
    assert IsLiteral("1") && IsLiteral("1000");
    assert DistinctMembers(Obj(page)) && LiteralsOk(Obj(page));
    assert DistinctMembers(Arr([Str("all")])) && LiteralsOk(Arr([Str("all")]));
  }

  lemma DatesAreDecoded(d: Dates)
    ensures DistinctMembers(DateBody(d)) && LiteralsOk(DateBody(d))
  {
    assert |"from"| != |"to"|;
  }

  lemma KeysDiffer(d: Dates, r: Request)
    ensures var ms := BodyOf(d, r).members; forall i, j :: 0 <= i < j < |ms| ==> ms[i].key != ms[j].key
  {
    assert |"address"| == 7 && |"chain"| == 5 && |"date"| == 4 && |"token_address"| == 13 && |"timeframe"| == 9;
    assert |"chains"| == 6 && |"pagination"| == 10;
  }

  /** Equal string members are equal strings. */
  lemma SameAt(a: Json, b: Json, key: string, s: string, t: string)
    requires a.Obj? && b.Obj? && Same(a, b) && DistinctMembers(b)
    requires Member(key, Str(s)) in a.members && Member(key, Str(t)) in b.members
    ensures s == t
  {
    var i :| 0 <= i < |a.members| && a.members[i] == Member(key, Str(s));
    assert HasSame(a.members[i], b.members);
    var j :| 0 <= j < |b.members| && b.members[j].key == key && Same(Str(s), b.members[j].value);
    var k :| 0 <= k < |b.members| && b.members[k] == Member(key, Str(t));
    assert j == k;
  }

  lemma PathNamesEndpoint(r: Request, s: Request)
    requires PathOf(r) == PathOf(s)
    ensures match r
      case DexTrades => s.DexTrades?
      case PnLSummary(_) => s.PnLSummary?
      case RelatedWallets(_, _) => s.RelatedWallets?
      case FlowIntelligence(_, _) => s.FlowIntelligence?
      case TokenInformation(_, _) => s.TokenInformation?
      case TokenOHLCV(_, _) => s.TokenOHLCV?
  {
    assert |"smart-money/dex-trades"| == 22 && |"profiler/address/pnl-summary"| == 28 && |"profiler/address/related-wallets"| == 32;
    assert |"tgm/flow-intelligence"| == 21 && |"tgm/token-information"| == 21 && |"tgm/token-ohlcv"| == 15;
    assert "tgm/flow-intelligence"[4] == 'f' && "tgm/token-information"[4] == 't';
  }

  lemma NoBraceInPath(r: Request)
    ensures '{' !in PathOf(r)
  {
  }

  lemma SameBodySameRequest(d: Dates, r: Request, s: Request)
    requires PathOf(r) == PathOf(s) && Same(BodyOf(d, r), BodyOf(d, s))
    ensures r == s
  {
    var a, b := BodyOf(d, r), BodyOf(d, s);
    PathNamesEndpoint(r, s);
    BodyIsDecoded(d, s);
    match r {
      case DexTrades =>
      case PnLSummary(x) =>
        assert a.members[0] in a.members && b.members[0] in b.members;
        SameAt(a, b, "address", x, s.address);
      case RelatedWallets(x, c) =>
        assert a.members[0] in a.members && b.members[0] in b.members && a.members[1] in a.members && b.members[1] in b.members;
        SameAt(a, b, "address", x, s.address);
        SameAt(a, b, "chain", c, s.chain);
      case _ =>
        assert a.members[0] in a.members && b.members[0] in b.members && a.members[1] in a.members && b.members[1] in b.members;
        SameAt(a, b, "chain", r.chain, s.chain);
        SameAt(a, b, "token_address", r.token, s.token);
    }
  }

  /**
   Within a run, requests have the same cache key exactly when they are the same
   request, so the disk cache is a set of requests, and a stored reply answers
   its own request only.
   */
  lemma KeysTellRequestsApart(d: Dates, r: Request, s: Request)
    ensures KeyText(PathOf(r), BodyOf(d, r)) == KeyText(PathOf(s), BodyOf(d, s)) <==> r == s
  {
    BodyIsDecoded(d, r);
    BodyIsDecoded(d, s);
    NoBraceInPath(r);
    NoBraceInPath(s);
    SameKeyIffSameRequest(PathOf(r), PathOf(s), BodyOf(d, r), BodyOf(d, s));
    if PathOf(r) == PathOf(s) && Same(BodyOf(d, r), BodyOf(d, s)) {
      SameBodySameRequest(d, r, s);
    }
  }
}
