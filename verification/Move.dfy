/** How far a token has travelled since smart money bought it. */
module Move {
  import opened Reals
  import opened Clusters
  import opened Concentration

  datatype Move = Move(entryPrice: real, peakMultiple: real, nowMultiple: real, fromPeak: real)

  datatype Buy = Buy(valueUSD: real, amount: real)

  datatype Candle = Candle(high: Option<real>, close: Option<real>)

  predicate IsFill(b: Buy)
  {
    b.valueUSD > 0.0 && b.amount > 0.0
  }

  function Price(b: Buy): real
    requires IsFill(b)
  {
    b.valueUSD / b.amount
  }

  // ---- Entry ----

  function Spent(buys: seq<Buy>): real
  {
    if |buys| == 0 then 0.0 else Spent(DropLast(buys)) + (if IsFill(Last(buys)) then Last(buys).valueUSD else 0.0)
  }

  function Amount(buys: seq<Buy>): (a: real)
    ensures a >= 0.0 && (a > 0.0 <==> HasFill(buys))
  {
    if |buys| == 0 then 0.0 else Amount(DropLast(buys)) + (if IsFill(Last(buys)) then Last(buys).amount else 0.0)
  }

  predicate HasFill(buys: seq<Buy>)
  {
    |buys| > 0 && (IsFill(Last(buys)) || HasFill(DropLast(buys)))
  }

  method EntryPrice(buys: seq<Buy>) returns (entry: Option<real>)
    ensures entry == if HasFill(buys) then Some(Spent(buys) / Amount(buys)) else None
  {
    var usd, amount := 0.0, 0.0;
    for i := 0 to |buys|
      invariant usd == Spent(buys[..i]) && amount == Amount(buys[..i])
    {
      assert DropLast(buys[..i + 1]) == buys[..i];
      if IsFill(buys[i]) {
        usd := usd + buys[i].valueUSD;
        amount := amount + buys[i].amount;
      }
    }
    assert buys[..|buys|] == buys;
    entry := if amount == 0.0 then None else Some(usd / amount);
  }

  /** `s` is at most `c` for each of `a` units. */
  ghost predicate AtMostEach(s: real, c: real, a: real)
  {
    s <= c * a
  }

  lemma AtMostStep(s: real, c: real, a: real, v: real, b: real, s': real, a': real)
    requires AtMostEach(s, c, a) && v <= c * b && s' == s + v && a' == a + b
    ensures AtMostEach(s', c, a')
  {
    Distribute(a, b, a', c);
  }

  lemma {:induction false} SpentAtMost(buys: seq<Buy>, c: real)
    requires forall b :: b in buys && IsFill(b) ==> Price(b) <= c
    ensures AtMostEach(Spent(buys), c, Amount(buys))
    decreases |buys|
  {
    if |buys| > 0 {
      var b, rest := Last(buys), DropLast(buys);
      assert b in buys && forall x :: x in rest ==> x in buys;
      SpentAtMost(rest, c);
      if IsFill(b) {
        AtMostByPrice(b.valueUSD, b.amount, c);
        AtMostStep(Spent(rest), c, Amount(rest), b.valueUSD, b.amount, Spent(buys), Amount(buys));
      }
    }
  }

  lemma {:induction false} SpentAtLeast(buys: seq<Buy>, c: real)
    requires forall b :: b in buys && IsFill(b) ==> Price(b) >= c
    ensures AtMostEach(-Spent(buys), -c, Amount(buys))
    decreases |buys|
  {
    if |buys| > 0 {
      var b, rest := Last(buys), DropLast(buys);
      assert b in buys && forall x :: x in rest ==> x in buys;
      SpentAtLeast(rest, c);
      if IsFill(b) {
        AtLeastByPrice(b.valueUSD, b.amount, c);
        AtMostStep(-Spent(rest), -c, Amount(rest), -b.valueUSD, b.amount, -Spent(buys), Amount(buys));
      }
    }
  }

  lemma AtMostByPrice(v: real, a: real, c: real)
    requires v > 0.0 && a > 0.0 && v / a <= c
    ensures v <= c * a
  {
    var p := v / a;
    assert p * a == v;
    Distribute(p, c - p, c, a);
    if p < c { ProductPositive(c - p, a); }
  }

  lemma AtLeastByPrice(v: real, a: real, c: real)
    requires v > 0.0 && a > 0.0 && v / a >= c
    ensures -v <= -c * a
  {
    var p := v / a;
    assert p * a == v;
    Distribute(c, p - c, p, a);
    if p > c { ProductPositive(p - c, a); }
  }

  lemma MeanAtMost(s: real, a: real, lo: real, hi: real)
    requires a > 0.0 && AtMostEach(-s, -lo, a) && AtMostEach(s, hi, a)
    ensures lo <= s / a <= hi
  {
    AtLeastRatio(s, lo, a);
    AtLeastRatio(-s, -hi, a);
    assert (-s) / a == -(s / a);
  }

  /** The entry lies between the cheapest and the dearest fill. */
  lemma EntryIsBetweenFills(buys: seq<Buy>, lo: real, hi: real)
    requires HasFill(buys)
    requires forall b :: b in buys && IsFill(b) ==> lo <= Price(b) <= hi
    ensures lo <= Spent(buys) / Amount(buys) <= hi
  {
    SpentAtLeast(buys, lo);
    SpentAtMost(buys, hi);
    MeanAtMost(Spent(buys), Amount(buys), lo, hi);
  }

  // ---- Peak and last close ----

  function Max(a: real, b: real): real
  {
    if b > a then b else a
  }

  function HighestFill(buys: seq<Buy>): (p: real)
    ensures p >= 0.0
  {
    if |buys| == 0 then 0.0
    else
      var rest := HighestFill(DropLast(buys));
      if IsFill(Last(buys)) then Max(rest, Price(Last(buys))) else rest
  }

  predicate Traded(x: Option<real>)
  {
    x.Some? && x.value > 0.0
  }

  /** The highest positive high, or `from` if that is higher. */
  function HighestHigh(candles: seq<Candle>, from: real): real
  {
    if |candles| == 0 then from
    else
      var rest := HighestHigh(DropLast(candles), from);
      if Traded(Last(candles).high) then Max(rest, Last(candles).high.value) else rest
  }

  predicate AnyHigh(candles: seq<Candle>)
  {
    |candles| > 0 && (Traded(Last(candles).high) || AnyHigh(DropLast(candles)))
  }

  /** The latest positive close, 0 when there is none. */
  function LatestClose(candles: seq<Candle>): (c: real)
    ensures c >= 0.0
  {
    if |candles| == 0 then 0.0
    else if Traded(Last(candles).close) then Last(candles).close.value
    else LatestClose(DropLast(candles))
  }

  function Peak(buys: seq<Buy>, candles: seq<Candle>): real
  {
    HighestHigh(candles, HighestFill(buys))
  }

  /** A move is given exactly when there is a fill, a bar that traded and a close. */
  predicate Priced(buys: seq<Buy>, candles: seq<Candle>)
  {
    HasFill(buys) && AnyHigh(candles) && LatestClose(candles) > 0.0
  }

  function MoveOf(entry: real, peak: real, last: real): Move
    requires entry > 0.0 && peak > 0.0
  {
    Move(entry, peak / entry, last / entry, 1.0 - last / peak)
  }

  lemma PeakAboveFills(buys: seq<Buy>, candles: seq<Candle>)
    ensures HighestHigh(candles, HighestFill(buys)) >= HighestFill(buys)
    ensures forall b :: b in buys && IsFill(b) ==> Price(b) <= HighestFill(buys)
    decreases |candles|, |buys|
  {
    if |candles| > 0 {
      PeakAboveFills(buys, DropLast(candles));
    } else if |buys| > 0 {
      assert buys == DropLast(buys) + [Last(buys)];
      PeakAboveFills(DropLast(buys), candles);
    }
  }

  lemma {:induction false} HighsBelowPeak(candles: seq<Candle>, from: real)
    ensures forall c :: c in candles && Traded(c.high) ==> c.high.value <= HighestHigh(candles, from)
    ensures HighestHigh(candles, from) == from || exists c :: c in candles && Traded(c.high) && c.high.value == HighestHigh(candles, from)
    decreases |candles|
  {
    if |candles| > 0 {
      assert candles == DropLast(candles) + [Last(candles)];
      HighsBelowPeak(DropLast(candles), from);
    }
  }

  /** With a fill, the entry is positive and no higher than the peak. */
  lemma EntryBelowPeak(buys: seq<Buy>, candles: seq<Candle>)
    requires HasFill(buys)
    ensures 0.0 < Spent(buys) / Amount(buys) <= Peak(buys, candles)
  {
    PeakAboveFills(buys, candles);
    SpentPositive(buys);
    forall b | b in buys && IsFill(b) ensures 0.0 <= Price(b) <= HighestFill(buys) {
    }
    EntryIsBetweenFills(buys, 0.0, HighestFill(buys));
    RatioPositive(Spent(buys), Amount(buys));
  }

  lemma SpentPositive(buys: seq<Buy>)
    ensures Spent(buys) >= 0.0 && (HasFill(buys) ==> Spent(buys) > 0.0)
  {
  }

  lemma RatioPositive(a: real, b: real)
    requires a > 0.0 && b > 0.0
    ensures a / b > 0.0
  {
  }

  // ---- What a move is made of ----

  /** Both parts positive: a price can be taken from the purchase. */
  ghost predicate SomeFill(buys: seq<Buy>)
  {
    exists i :: 0 <= i < |buys| && buys[i].valueUSD > 0.0 && buys[i].amount > 0.0
  }

  ghost predicate SomeHigh(candles: seq<Candle>)
  {
    exists i :: 0 <= i < |candles| && candles[i].high.Some? && candles[i].high.value > 0.0
  }

  ghost predicate SomeClose(candles: seq<Candle>)
  {
    exists i :: 0 <= i < |candles| && candles[i].close.Some? && candles[i].close.value > 0.0
  }

  /** `close` is the positive close of bar `i`, and no later bar has one. */
  ghost predicate LatestAt(candles: seq<Candle>, i: int, close: real)
  {
    && 0 <= i < |candles| && candles[i].close == Some(close) && close > 0.0
    && forall j :: i < j < |candles| ==> candles[j].close.None? || candles[j].close.value <= 0.0
  }

  ghost predicate IsLatest(candles: seq<Candle>, close: real)
  {
    exists i :: LatestAt(candles, i, close)
  }

  /** `peak` is the highest of the fills' prices and the positive highs. */
  ghost predicate IsHighest(buys: seq<Buy>, candles: seq<Candle>, peak: real)
  {
    && (forall b :: b in buys && b.valueUSD > 0.0 && b.amount > 0.0 ==> b.valueUSD / b.amount <= peak)
    && (forall c :: c in candles && c.high.Some? && c.high.value > 0.0 ==> c.high.value <= peak)
    && ((exists b :: b in buys && b.valueUSD > 0.0 && b.amount > 0.0 && b.valueUSD / b.amount == peak)
        || (exists c :: c in candles && c.high == Some(peak) && peak > 0.0))
  }

  /** Spending and amounts add up over any split of the purchases; a purchase without a price counts nothing. */
  lemma {:induction false} FillsAdd(a: seq<Buy>, b: seq<Buy>)
    ensures Spent(a + b) == Spent(a) + Spent(b) && Amount(a + b) == Amount(a) + Amount(b)
    ensures forall x: Buy :: Spent([x]) == if x.valueUSD > 0.0 && x.amount > 0.0 then x.valueUSD else 0.0
    ensures forall x: Buy :: Amount([x]) == if x.valueUSD > 0.0 && x.amount > 0.0 then x.amount else 0.0
    decreases |b|
  {
    assert forall x: Buy :: DropLast([x]) == [] && Last([x]) == x;
    if |b| == 0 {
      assert a + b == a;
    } else {
      assert DropLast(a + b) == a + DropLast(b) && Last(a + b) == Last(b);
      FillsAdd(a, DropLast(b));
    }
  }

  lemma HasFillIff(buys: seq<Buy>)
    ensures HasFill(buys) <==> SomeFill(buys)
  {
    if |buys| > 0 {
      HasFillIff(DropLast(buys));
      if SomeFill(DropLast(buys)) {
        var i :| 0 <= i < |buys| - 1 && buys[i].valueUSD > 0.0 && buys[i].amount > 0.0;
      }
    }
  }

  lemma AnyHighIff(candles: seq<Candle>)
    ensures AnyHigh(candles) <==> SomeHigh(candles)
  {
    if |candles| > 0 {
      AnyHighIff(DropLast(candles));
      if SomeHigh(DropLast(candles)) {
        var i :| 0 <= i < |candles| - 1 && candles[i].high.Some? && candles[i].high.value > 0.0;
      }
    }
  }

  lemma {:induction false} LatestCloseIsLatest(candles: seq<Candle>)
    ensures LatestClose(candles) > 0.0 <==> SomeClose(candles)
    ensures LatestClose(candles) > 0.0 ==> IsLatest(candles, LatestClose(candles))
    decreases |candles|
  {
    if |candles| > 0 {
      var rest, last := DropLast(candles), |candles| - 1;
      LatestCloseIsLatest(rest);
      if Traded(candles[last].close) {
        assert LatestAt(candles, last, LatestClose(candles));
      } else {
        if i :| LatestAt(rest, i, LatestClose(rest)) {
          StillLatest(candles, i, LatestClose(rest));
        }
        assert forall i :: 0 <= i < |rest| ==> candles[i] == rest[i];
      }
    }
  }

  lemma StillLatest(candles: seq<Candle>, i: int, close: real)
    requires |candles| > 0 && (Last(candles).close.None? || Last(candles).close.value <= 0.0)
    requires LatestAt(DropLast(candles), i, close)
    ensures LatestAt(candles, i, close)
  {
    forall j | i < j < |candles| ensures candles[j].close.None? || candles[j].close.value <= 0.0 {
      if j < |candles| - 1 {
        assert candles[j] == DropLast(candles)[j];
      }
    }
  }

  lemma PeakIsHighest(buys: seq<Buy>, candles: seq<Candle>)
    requires HasFill(buys)
    ensures IsHighest(buys, candles, Peak(buys, candles))
  {
    PeakIsReached(buys, candles);
    PeakAboveFills(buys, candles);
    HighsBelowPeak(candles, HighestFill(buys));
    forall b | b in buys && b.valueUSD > 0.0 && b.amount > 0.0 ensures b.valueUSD / b.amount <= Peak(buys, candles) {
      assert IsFill(b) && Price(b) <= HighestFill(buys);
    }
  }

  /** The figures of a move, multiplied out. */
  ghost predicate Figures(m: Move, spent: real, amount: real, peak: real, last: real)
  {
    && m.entryPrice > 0.0 && m.entryPrice * amount == spent
    && m.peakMultiple * m.entryPrice == peak && m.nowMultiple * m.entryPrice == last && (1.0 - m.fromPeak) * peak == last
  }

  /** A move's figures are those of what was spent and bought, the highest price and the latest close. */
  ghost predicate MoveSays(buys: seq<Buy>, candles: seq<Candle>, m: Move)
  {
    exists peak, last ::
      IsHighest(buys, candles, peak) && IsLatest(candles, last) && Figures(m, Spent(buys), Amount(buys), peak, last)
  }

  lemma MultipliedOut(spent: real, amount: real, entry: real, peak: real, last: real)
    requires amount > 0.0 && entry == spent / amount && entry > 0.0 && peak > 0.0
    ensures Figures(MoveOf(entry, peak, last), spent, amount, peak, last)
  {
    RatioTimes(spent, amount);
    RatioTimes(peak, entry);
    RatioTimes(last, entry);
    RatioTimes(last, peak);
    assert 1.0 - MoveOf(entry, peak, last).fromPeak == last / peak;
  }

  lemma MoveIsMade(buys: seq<Buy>, candles: seq<Candle>)
    requires Priced(buys, candles)
    ensures Spent(buys) / Amount(buys) > 0.0 && Peak(buys, candles) > 0.0
    ensures MoveSays(buys, candles, MoveOf(Spent(buys) / Amount(buys), Peak(buys, candles), LatestClose(candles)))
  {
    EntryBelowPeak(buys, candles);
    PeakIsHighest(buys, candles);
    LatestCloseIsLatest(candles);
    MultipliedOut(Spent(buys), Amount(buys), Spent(buys) / Amount(buys), Peak(buys, candles), LatestClose(candles));
  }

  lemma RatioTimes(a: real, b: real)
    requires b > 0.0
    ensures a / b * b == a
  {
  }

  /** The loops over fills and bars. */
  method ComputeMove(buys: seq<Buy>, candles: seq<Candle>) returns (m: Option<Move>)
    ensures m.Some? <==> SomeFill(buys) && SomeHigh(candles) && SomeClose(candles)
    ensures m.Some? ==> MoveSays(buys, candles, m.value)
    ensures m.Some? <==> Priced(buys, candles)
    ensures m.Some? ==>
      Spent(buys) / Amount(buys) > 0.0 && Peak(buys, candles) > 0.0 &&
      m.value == MoveOf(Spent(buys) / Amount(buys), Peak(buys, candles), LatestClose(candles))
  {
    HasFillIff(buys);
    AnyHighIff(candles);
    LatestCloseIsLatest(candles);
    if Priced(buys, candles) {
      MoveIsMade(buys, candles);
    }
    var entry := EntryPrice(buys);
    if entry.None? {
      return None;
    }
    var peak, last := 0.0, 0.0;
    for i := 0 to |buys|
      invariant peak == HighestFill(buys[..i])
    {
      assert DropLast(buys[..i + 1]) == buys[..i];
      if IsFill(buys[i]) && Price(buys[i]) > peak {
        peak := Price(buys[i]);
      }
    }
    assert buys[..|buys|] == buys;
    var candlePeak := false;
    for i := 0 to |candles|
      invariant peak == HighestHigh(candles[..i], HighestFill(buys))
      invariant candlePeak == AnyHigh(candles[..i]) && last == LatestClose(candles[..i])
    {
      assert DropLast(candles[..i + 1]) == candles[..i];
      var c := candles[i];
      if Traded(c.high) {
        candlePeak := true;
        if c.high.value > peak {
          peak := c.high.value;
        }
      }
      if Traded(c.close) {
        last := c.close.value;
      }
    }
    assert candles[..|candles|] == candles;
    if !candlePeak || last == 0.0 {
      return None;
    }
    EntryBelowPeak(buys, candles);
    m := Some(MoveOf(entry.value, peak, last));
  }

  // ---- What a move means ----

  /** Some fill or some high was at or above `level`. */
  ghost predicate Reached(buys: seq<Buy>, candles: seq<Candle>, level: real)
  {
    || (exists b :: b in buys && IsFill(b) && Price(b) >= level)
    || (exists c :: c in candles && Traded(c.high) && c.high.value >= level)
  }

  lemma ReachedIff(buys: seq<Buy>, candles: seq<Candle>, level: real)
    requires HasFill(buys)
    ensures Reached(buys, candles, level) <==> level <= Peak(buys, candles)
  {
    PeakIsReached(buys, candles);
    PeakAboveFills(buys, candles);
    HighsBelowPeak(candles, HighestFill(buys));
  }

  ghost predicate Sensible(m: Move, closeWasReached: bool)
  {
    && m.peakMultiple >= 1.0 && m.nowMultiple > 0.0 && m.fromPeak < 1.0
    && m.nowMultiple == m.peakMultiple * (1.0 - m.fromPeak)
    && (m.fromPeak >= 0.0 <==> closeWasReached)
  }

  /**
   The token peaked at or above what smart money paid, never all the way down,
   and the three figures agree with one another. It sits at or below its peak
   exactly when some fill or some high reached the latest close.
   */
  lemma MoveMeaning(buys: seq<Buy>, candles: seq<Candle>)
    requires Priced(buys, candles)
    ensures 0.0 < Spent(buys) / Amount(buys) <= Peak(buys, candles)
    ensures Sensible(MoveOf(Spent(buys) / Amount(buys), Peak(buys, candles), LatestClose(candles)),
                     Reached(buys, candles, LatestClose(candles)))
  {
    EntryBelowPeak(buys, candles);
    var entry, peak, last := Spent(buys) / Amount(buys), Peak(buys, candles), LatestClose(candles);
    MultiplesAgree(entry, peak, last);
    ReachedIff(buys, candles, last);
  }

  lemma MultiplesAgree(entry: real, peak: real, last: real)
    requires 0.0 < entry <= peak && last > 0.0
    ensures Sensible(MoveOf(entry, peak, last), last <= peak)
  {
    AtLeastRatio(peak, 1.0, entry);
    RatioPositive(last, entry);
    RatioPositive(last, peak);
    var p, q := peak / entry, last / peak;
    assert p * entry == peak && q * peak == last;
    assert p * q * entry == last;
    RatioToOne(last, peak);
    if last > peak {
      Distribute(1.0, q - 1.0, q, peak);
      AtLeastRatio(last, 1.0, peak);
    }
  }

  /** The peak is a fill's price or a bar's high. */
  lemma PeakIsReached(buys: seq<Buy>, candles: seq<Candle>)
    requires HasFill(buys)
    ensures (exists b :: b in buys && IsFill(b) && Price(b) == Peak(buys, candles))
         || (exists c :: c in candles && Traded(c.high) && c.high.value == Peak(buys, candles))
  {
    HighsBelowPeak(candles, HighestFill(buys));
    HighestFillIsAFill(buys);
  }

  lemma HighestFillIsAFill(buys: seq<Buy>)
    requires HasFill(buys)
    ensures exists b :: b in buys && IsFill(b) && Price(b) == HighestFill(buys)
  {
    var b, rest := Last(buys), DropLast(buys);
    assert buys == rest + [b];
    if HasFill(rest) {
      HighestFillIsAFill(rest);
      var x :| x in rest && IsFill(x) && Price(x) == HighestFill(rest);
      assert x in buys;
    } else {
      NoFillNoPrice(rest);
      RatioPositive(b.valueUSD, b.amount);
    }
    assert b in buys;
  }

  lemma NoFillNoPrice(buys: seq<Buy>)
    requires !HasFill(buys)
    ensures HighestFill(buys) == 0.0
  {
  }

  /** If every close has a high at or above it in its own bar, the distance from the peak is in [0, 1). */
  lemma BarsGiveFromPeak(buys: seq<Buy>, candles: seq<Candle>)
    requires Priced(buys, candles)
    requires forall c :: c in candles && Traded(c.close) ==> c.high.Some? && c.high.value >= c.close.value
    ensures 0.0 < Spent(buys) / Amount(buys) <= Peak(buys, candles)
    ensures 0.0 <= MoveOf(Spent(buys) / Amount(buys), Peak(buys, candles), LatestClose(candles)).fromPeak < 1.0
  {
    MoveMeaning(buys, candles);
    LatestCloseIsAClose(candles);
    var c :| c in candles && Traded(c.close) && c.close.value == LatestClose(candles);
    assert Traded(c.high) && c.high.value >= LatestClose(candles);
  }

  lemma LatestCloseIsAClose(candles: seq<Candle>)
    requires LatestClose(candles) > 0.0
    ensures exists c :: c in candles && Traded(c.close) && c.close.value == LatestClose(candles)
  {
    assert candles == DropLast(candles) + [Last(candles)];
    if !Traded(Last(candles).close) {
      LatestCloseIsAClose(DropLast(candles));
      var c :| c in DropLast(candles) && Traded(c.close) && c.close.value == LatestClose(candles);
      assert c in candles;
    } else {
      assert Last(candles) in candles;
    }
  }

  /** Without that, it can be negative: a bar may close above every recorded high. */
  lemma FromPeakCanBeNegative()
    ensures
      var buys := [Buy(1.0, 1.0)];
      var candles := [Candle(Some(1.0), None), Candle(None, Some(2.0))];
      Priced(buys, candles) && Spent(buys) / Amount(buys) == 1.0 && Peak(buys, candles) == 1.0 &&
      MoveOf(1.0, 1.0, LatestClose(candles)).fromPeak == -1.0
  {
    var b, c0, c1 := Buy(1.0, 1.0), Candle(Some(1.0), None), Candle(None, Some(2.0));
    assert DropLast([b]) == [] && DropLast([c0, c1]) == [c0] && DropLast([c0]) == [];
    assert Price(b) == 1.0;
  }
}
