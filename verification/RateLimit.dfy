/** The token buckets, and what any interleaving of their callers can draw from them. */
module RateLimit {
  import opened Reals

  datatype Bucket = Bucket(tokens: real, capacity: real, rate: real, last: real)
  {
    ghost predicate Valid()
    {
      0.0 <= tokens <= capacity && rate > 0.0
    }
  }

  /** The refill of one locked section; a clock that went back refills nothing. */
  function Refill(b: Bucket, now: real): Bucket
  {
    if now > b.last then
      var t := b.tokens + Gain(b.rate, now - b.last);
      b.(tokens := if t > b.capacity then b.capacity else t, last := now)
    else b
  }

  predicate Grants(b: Bucket, now: real)
  {
    Refill(b, now).tokens >= 1.0
  }

  /** One locked section of one caller, at clock reading `now`. */
  function Section(b: Bucket, now: real): Bucket
  {
    var r := Refill(b, now);
    if r.tokens >= 1.0 then r.(tokens := r.tokens - 1.0) else r
  }

  /** The tokens there are at `now`: what was left and what time brought since, up to the capacity. */
  ghost predicate TokensAt(b: Bucket, now: real, tokens: real)
  {
    var brought := if now > b.last then b.rate * (now - b.last) else 0.0;
    && tokens <= b.capacity && tokens <= b.tokens + brought
    && (tokens == b.capacity || tokens == b.tokens + brought)
  }

  /** A section grants exactly when a whole token is there, and then takes one; the clock of the bucket never goes back. */
  lemma SectionMeans(b: Bucket, now: real)
    requires b.tokens <= b.capacity
    ensures Section(b, now).last == if now > b.last then now else b.last
    ensures Section(b, now).capacity == b.capacity && Section(b, now).rate == b.rate
    ensures exists t ::
      && TokensAt(b, now, t) && (Grants(b, now) <==> t >= 1.0)
      && Section(b, now).tokens == if t >= 1.0 then t - 1.0 else t
  {
    assert TokensAt(b, now, Refill(b, now).tokens);
  }

  class TokenBucket {
    var tokens: real
    const capacity: real
    const rate: real
    var last: real

    function View(): Bucket
      reads this
    {
      Bucket(tokens, capacity, rate, last)
    }

    constructor (ratePerSec: real, cap: real, now: real)
      ensures View() == Bucket(cap, cap, ratePerSec, now)
    {
      tokens, capacity, rate, last := cap, cap, ratePerSec, now;
    }

    /** What `Wait` does while it holds the lock: take a token, or learn how long to sleep. */
    method TryTake(now: real) returns (granted: bool, wait: real)
      requires View().Valid()
      modifies this
      ensures View() == Section(old(View()), now) && View().Valid()
      ensures granted == Grants(old(View()), now)
      ensures !granted ==> wait == SleepFor(View()) > 0.0
    {
      ghost var before := View();
      SectionKeepsValid(before, now);
      var elapsed := now - last;
      if elapsed > 0.0 {
        tokens := tokens + Gain(rate, elapsed);
        if tokens > capacity {
          tokens := capacity;
        }
        last := now;
      }
      if tokens >= 1.0 {
        tokens := tokens - 1.0;
        return true, 0.0;
      }
      assert View() == Section(before, now);
      SleepIsPositive(View());
      wait := (1.0 - tokens) / rate;
      granted := false;
    }

    /** `Wait` over the clock readings its wake-ups would see; no grant means it is still asleep. */
    method Wait(clock: seq<real>) returns (granted: bool, used: nat)
      requires View().Valid()
      modifies this
      ensures used <= |clock| && View() == Run(old(View()), clock[..used]) && View().Valid()
      ensures Granted(old(View()), clock[..used]) == if granted then 1 else 0
      ensures !granted ==> used == |clock|
    {
      used := 0;
      while used < |clock|
        invariant used <= |clock| && View().Valid()
        invariant View() == Run(old(View()), clock[..used]) && Granted(old(View()), clock[..used]) == 0
      {
        RunSnoc(old(View()), clock[..used], clock[used]);
        assert clock[..used + 1] == clock[..used] + [clock[used]];
        var ok, _ := TryTake(clock[used]);
        used := used + 1;
        if ok {
          return true, used;
        }
      }
      granted := false;
    }
  }

  function SleepFor(b: Bucket): real
    requires b.rate > 0.0
  {
    (1.0 - b.tokens) / b.rate
  }

  lemma SleepIsPositive(b: Bucket)
    requires b.rate > 0.0 && b.tokens < 1.0
    ensures SleepFor(b) > 0.0
  {
  }

  lemma SectionKeepsValid(b: Bucket, now: real)
    requires b.Valid()
    ensures Refill(b, now).Valid() && Section(b, now).Valid()
  {
    if now > b.last {
      GainPositive(b.rate, now - b.last);
    }
  }

  lemma GainPositive(rate: real, time: real)
    requires rate > 0.0 && time > 0.0
    ensures Gain(rate, time) > 0.0
  {
    ProductPositive(rate, time);
  }

  /**
   The computed sleep is exact: a caller that was refused and is alone is
   granted at its next reading if and only if that sleep has passed.
   */
  lemma SleepIsExact(b: Bucket, now: real, later: real)
    requires b.Valid() && b.capacity >= 1.0 && !Grants(b, now)
    requires later >= Section(b, now).last
    ensures Grants(Section(b, now), later) <==> later >= Section(b, now).last + SleepFor(Section(b, now))
  {
    var c := Section(b, now);
    var s := SleepFor(c);
    var d := later - c.last;
    SectionKeepsValid(b, now);
    SleepGains(c);
    SleepIsPositive(c);
    if d > s {
      GainAdds(c.rate, s, d - s, d);
      GainPositive(c.rate, d - s);
    } else if d < s {
      GainAdds(c.rate, d, s - d, s);
      GainPositive(c.rate, s - d);
    }
  }

  lemma SleepGains(b: Bucket)
    requires b.rate > 0.0
    ensures Gain(b.rate, SleepFor(b)) == 1.0 - b.tokens
  {
  }

  // ---- Any interleaving of callers is a sequence of clock readings ----

  function Run(b: Bucket, clock: seq<real>): Bucket
    decreases |clock|
  {
    if |clock| == 0 then b else Run(Section(b, clock[0]), clock[1..])
  }

  function Granted(b: Bucket, clock: seq<real>): nat
    decreases |clock|
  {
    if |clock| == 0 then 0 else (if Grants(b, clock[0]) then 1 else 0) + Granted(Section(b, clock[0]), clock[1..])
  }

  lemma {:induction false} RunSnoc(b: Bucket, clock: seq<real>, now: real)
    ensures Run(b, clock + [now]) == Section(Run(b, clock), now)
    ensures Granted(b, clock + [now]) == Granted(b, clock) + (if Grants(Run(b, clock), now) then 1 else 0)
    decreases |clock|
  {
    if |clock| > 0 {
      assert (clock + [now])[1..] == clock[1..] + [now];
      RunSnoc(Section(b, clock[0]), clock[1..], now);
    }
  }

  /** The tokens a bucket could hand out from `b` up to when its clock reads `last`: what it holds plus rate times time. */
  function Allowance(b: Bucket, last: real): real
  {
    b.tokens + Gain(b.rate, last - b.last)
  }

  function Gain(rate: real, time: real): real
  {
    rate * time
  }

  lemma NoTimeNoTokens(b: Bucket)
    ensures Allowance(b, b.last) == b.tokens
  {
  }

  lemma SectionWithinAllowance(b: Bucket, now: real)
    requires b.Valid()
    ensures var c := Section(b, now);
      && c.Valid() && c.capacity == b.capacity && c.rate == b.rate && c.last >= b.last
      && c.tokens + (if Grants(b, now) then 1.0 else 0.0) <= Allowance(b, c.last)
  {
    SectionKeepsValid(b, now);
  }

  /** Waiting once for the whole time allows as much as waiting twice. */
  lemma {:induction false} AllowanceChains(b: Bucket, c: Bucket, last: real, g: real)
    requires c.rate == b.rate && c.tokens + g <= Allowance(b, c.last)
    ensures Allowance(c, last) + g <= Allowance(b, last)
  {
    GainAdds(b.rate, c.last - b.last, last - c.last, last - b.last);
  }

  lemma {:induction false} GainAdds(rate: real, x: real, y: real, z: real)
    requires z == x + y
    ensures Gain(rate, z) == Gain(rate, x) + Gain(rate, y)
  {
    Distribute(x, y, z, rate);
  }

  /**
   Whatever the interleaving and whatever the clock reads: tokens stay between 0
   and the capacity, `last` never goes back, and the grants from any state on,
   with the tokens still there, never exceed that state's allowance.
   */
  lemma {:induction false} RunWithinAllowance(b: Bucket, clock: seq<real>)
    requires b.Valid()
    ensures var c := Run(b, clock);
      && c.Valid() && c.capacity == b.capacity && c.rate == b.rate && c.last >= b.last
      && c.tokens + Granted(b, clock) as real <= Allowance(b, c.last)
    decreases |clock|
  {
    NoTimeNoTokens(b);
    if |clock| > 0 {
      var c := Section(b, clock[0]);
      SectionWithinAllowance(b, clock[0]);
      RunWithinAllowance(c, clock[1..]);
      AllowanceChains(b, c, Run(b, clock).last, if Grants(b, clock[0]) then 1.0 else 0.0);
    }
  }

  // ---- A second is not a window of `rate` grants ----

  function Repeat(n: nat, t: real): (s: seq<real>)
    ensures |s| == n
  {
    seq(n, _ => t)
  }

  lemma {:induction false} Drain(b: Bucket, n: nat)
    requires b.tokens >= n as real
    ensures Granted(b, Repeat(n, b.last)) == n
    ensures Run(b, Repeat(n, b.last)) == b.(tokens := b.tokens - n as real)
    decreases n
  {
    if n > 0 {
      assert Repeat(n, b.last)[1..] == Repeat(n - 1, b.last);
      Drain(b.(tokens := b.tokens - 1.0), n - 1);
    }
  }

  lemma {:induction false} RunAppend(b: Bucket, c1: seq<real>, c2: seq<real>)
    ensures Granted(b, c1 + c2) == Granted(b, c1) + Granted(Run(b, c1), c2)
    decreases |c1|
  {
    if |c1| == 0 {
      assert c1 + c2 == c2;
    } else {
      assert (c1 + c2)[1..] == c1[1..] + c2;
      RunAppend(Section(b, c1[0]), c1[1..], c2);
    }
  }

  /** No reading is past the window of length `w` that opens at the bucket's last reading. */
  ghost predicate WithinWindow(b: Bucket, w: real, clock: seq<real>)
  {
    forall i :: 0 <= i < |clock| ==> clock[i] <= b.last + w
  }

  lemma {:induction false} LastStaysWithin(b: Bucket, end: real, clock: seq<real>)
    requires b.last <= end && forall i :: 0 <= i < |clock| ==> clock[i] <= end
    ensures Run(b, clock).last <= end
    decreases |clock|
  {
    if |clock| > 0 {
      LastStaysWithin(Section(b, clock[0]), end, clock[1..]);
    }
  }

  /** A bucket that gains exactly its capacity `n` over `w`. */
  ghost predicate RefillsIn(b: Bucket, n: nat, w: real)
  {
    b.Valid() && b.capacity == n as real && w > 0.0 && Gain(b.rate, w) == n as real
  }

  lemma {:induction false} GrantsInWindow(b: Bucket, n: nat, w: real, clock: seq<real>)
    requires RefillsIn(b, n, w) && WithinWindow(b, w, clock)
    ensures Granted(b, clock) as real <= b.tokens + n as real
  {
    var c := Run(b, clock);
    RunWithinAllowance(b, clock);
    LastStaysWithin(b, b.last + w, clock);
    GainGrows(b.rate, c.last - b.last, w);
  }

  lemma GainGrows(rate: real, x: real, w: real)
    requires x <= w && rate > 0.0
    ensures Gain(rate, x) <= Gain(rate, w)
  {
    GainAdds(rate, x, w - x, w);
    if x < w { GainPositive(rate, w - x); } else { GainAdds(rate, 0.0, 0.0, 0.0); }
  }

  /** As many as it holds at once, then a full refill: the most a window can grant. */
  function Burst(b: Bucket, m: nat, n: nat, w: real): seq<real>
  {
    Repeat(m, b.last) + Repeat(n, b.last + w)
  }

  lemma {:induction false} BurstWithin(b: Bucket, m: nat, n: nat, w: real)
    requires w > 0.0
    ensures WithinWindow(b, w, Burst(b, m, n, w))
  {
  }

  lemma {:induction false} BurstGrants(b: Bucket, m: nat, n: nat, w: real)
    requires RefillsIn(b, n, w) && b.tokens >= m as real
    ensures Granted(b, Burst(b, m, n, w)) == m + n
  {
    var rest := Bucket(b.tokens - m as real, b.capacity, b.rate, b.last);
    assert Granted(b, Repeat(m, b.last)) == m && Run(b, Repeat(m, b.last)) == rest by {
      Drain(b, m);
    }
    assert Granted(rest, Repeat(n, b.last + w)) == n by {
      DrainedRefills(b, rest, m, n, w);
      FullRefill(rest, n, w);
    }
    GrantsInTurn(b, Burst(b, m, n, w), Repeat(m, b.last), rest, Repeat(n, b.last + w), m, n);
  }

  lemma {:induction false} GrantsInTurn(b: Bucket, clock: seq<real>, c1: seq<real>, mid: Bucket, c2: seq<real>, x: nat, y: nat)
    requires clock == c1 + c2
    requires Granted(b, c1) == x && Run(b, c1) == mid && Granted(mid, c2) == y
    ensures Granted(b, clock) == x + y
  {
    RunAppend(b, c1, c2);
  }

  lemma DrainedRefills(b: Bucket, rest: Bucket, m: nat, n: nat, w: real)
    requires RefillsIn(b, n, w) && b.tokens >= m as real
    requires rest == Bucket(b.tokens - m as real, b.capacity, b.rate, b.last)
    ensures RefillsIn(rest, n, w)
  {
  }

  lemma {:induction false} FullRefill(b: Bucket, n: nat, w: real)
    requires RefillsIn(b, n, w)
    ensures Granted(b, Repeat(n, b.last + w)) == n
  {
    if n > 0 {
      RefillFills(b, n, w);
      GrantsWhenFull(b, Bucket(n as real, b.capacity, b.rate, b.last + w), n);
    }
  }

  lemma {:induction false} GrantsWhenFull(b: Bucket, full: Bucket, n: nat)
    requires n > 0 && full.tokens == n as real && Refill(b, full.last) == full
    ensures Granted(b, Repeat(n, full.last)) == n
  {
    SameAfterRefill(b, full, Repeat(n, full.last));
    Drain(full, n);
  }

  lemma RefillFills(b: Bucket, n: nat, w: real)
    requires RefillsIn(b, n, w)
    ensures Refill(b, b.last + w) == Bucket(n as real, b.capacity, b.rate, b.last + w)
  {
    assert b.last + w - b.last == w;
  }

  lemma {:induction false} SameAfterRefill(b: Bucket, c: Bucket, clock: seq<real>)
    requires |clock| > 0 && Refill(b, clock[0]) == c && c.last == clock[0]
    ensures Granted(b, clock) == Granted(c, clock)
  {
    assert Section(b, clock[0]) == Section(c, clock[0]);
  }

  /**
   How far a window of the bucket's refill time can pass its rate: for any k,
   every such window grants at most `n + k` exactly when the bucket holds fewer
   than `k + 1` tokens as it opens. So "n per window" holds exactly for
   windows that open with less than one token, and a full bucket allows 2n.
   */
  lemma {:induction false} WindowHoldsIff(b: Bucket, n: nat, w: real, k: nat)
    requires RefillsIn(b, n, w)
    ensures (forall clock :: WithinWindow(b, w, clock) ==> Granted(b, clock) <= n + k) <==> b.tokens < (k + 1) as real
  {
    if b.tokens < (k + 1) as real {
      forall clock | WithinWindow(b, w, clock) ensures Granted(b, clock) <= n + k {
        GrantsInWindow(b, n, w, clock);
      }
    } else {
      BurstWithin(b, k + 1, n, w);
      BurstGrants(b, k + 1, n, w);
    }
  }

  /** Both buckets of a limiter are of that kind: one refills in a second, the other in a minute. */
  lemma BucketsRefill(perSec: nat, perMin: nat, start: real)
    requires perSec > 0 && perMin > 0
    ensures RefillsIn(Initial(perSec, perMin, start).perSecond, perSec, 1.0)
    ensures RefillsIn(Initial(perSec, perMin, start).perMinute, perMin, 60.0)
  {
  }

  /** A full bucket of n per second grants 2n within one second. */
  lemma {:induction false} BurstIsTwiceTheRate(n: nat, t: real)
    requires n > 0
    ensures var b := Bucket(n as real, n as real, n as real, t);
      b.Valid() && WithinWindow(b, 1.0, Burst(b, n, n, 1.0)) && Granted(b, Burst(b, n, n, 1.0)) == 2 * n
  {
    BurstWithin(Bucket(n as real, n as real, n as real, t), n, n, 1.0);
    BurstGrants(Bucket(n as real, n as real, n as real, t), n, n, 1.0);
  }

  // ---- Both buckets: callers pass the per-second bucket, then the per-minute one ----

  type Caller = nat

  /** `parked` callers hold a per-second token and wait on the per-minute bucket. */
  datatype Limiter = Limiter(perSecond: Bucket, perMinute: Bucket, parked: set<Caller>, completed: nat)

  datatype Event =
    | TrySecond(caller: Caller, now: real)
    | TryMinute(caller: Caller, now: real)
    | Cancel(caller: Caller)

  function Initial(perSec: nat, perMin: nat, start: real): Limiter
  {
    Limiter(
      Bucket(perSec as real, perSec as real, perSec as real, start),
      Bucket(perMin as real, perMin as real, perMin as real / 60.0, start),
      {}, 0)
  }

  /** An event of a caller that is not at that point changes nothing. */
  function Next(s: Limiter, e: Event): Limiter
  {
    match e
    case TrySecond(c, now) =>
      if c in s.parked then s
      else s.(perSecond := Section(s.perSecond, now), parked := if Grants(s.perSecond, now) then s.parked + {c} else s.parked)
    case TryMinute(c, now) =>
      if c !in s.parked then s
      else if Grants(s.perMinute, now) then
        s.(perMinute := Section(s.perMinute, now), parked := s.parked - {c}, completed := s.completed + 1)
      else s.(perMinute := Section(s.perMinute, now))
    case Cancel(c) => s.(parked := s.parked - {c})
  }

  function After(s: Limiter, events: seq<Event>): Limiter
    decreases |events|
  {
    if |events| == 0 then s else After(Next(s, events[0]), events[1..])
  }

  /** What the second bucket has let through and not yet passed the minute bucket, with what it still holds. */
  function Pending(s: Limiter): real
  {
    s.perSecond.tokens + |s.parked| as real
  }

  ghost predicate StepBound(s: Limiter, t: Limiter)
  {
    && t.perSecond.Valid() && t.perMinute.Valid()
    && t.perSecond.rate == s.perSecond.rate && t.perMinute.rate == s.perMinute.rate
    && t.perSecond.capacity == s.perSecond.capacity && t.perMinute.capacity == s.perMinute.capacity
    && t.perSecond.last >= s.perSecond.last && t.perMinute.last >= s.perMinute.last
    && t.completed >= s.completed
    && t.perMinute.tokens + (t.completed - s.completed) as real <= Allowance(s.perMinute, t.perMinute.last)
    && Pending(t) + (t.completed - s.completed) as real <= Allowance(s.perSecond, t.perSecond.last) + |s.parked| as real
  }

  lemma NextBound(s: Limiter, e: Event)
    requires s.perSecond.Valid() && s.perMinute.Valid()
    ensures StepBound(s, Next(s, e))
  {
    NoTimeNoTokens(s.perSecond);
    NoTimeNoTokens(s.perMinute);
    match e {
      case TrySecond(c, now) =>
        SectionWithinAllowance(s.perSecond, now);
      case TryMinute(c, now) =>
        SectionWithinAllowance(s.perMinute, now);
      case Cancel(c) =>
        assert |s.parked - {c}| <= |s.parked|;
    }
  }

  /**
   From any state on, and for any interleaving of any number of callers, the
   completions are within the minute bucket's allowance, and within the second
   bucket's allowance plus the callers that were already parked.
   */
  lemma {:induction false} CompletionsWithinBoth(s: Limiter, events: seq<Event>)
    requires s.perSecond.Valid() && s.perMinute.Valid()
    ensures StepBound(s, After(s, events))
    decreases |events|
  {
    NoTimeNoTokens(s.perSecond);
    NoTimeNoTokens(s.perMinute);
    if |events| > 0 {
      var m := Next(s, events[0]);
      var t := After(s, events);
      NextBound(s, events[0]);
      CompletionsWithinBoth(m, events[1..]);
      AllowanceChains(s.perMinute, m.perMinute, t.perMinute.last, (m.completed - s.completed) as real);
      AllowanceChains(s.perSecond, m.perSecond, t.perSecond.last,
                      |m.parked| as real - |s.parked| as real + (m.completed - s.completed) as real);
    }
  }

  /** Since start, completions obey both caps: capacity plus rate times the time that passed. */
  lemma LimiterObeysBothCaps(perSec: nat, perMin: nat, start: real, events: seq<Event>)
    requires perSec > 0 && perMin > 0
    ensures var t := After(Initial(perSec, perMin, start), events);
      && t.completed as real <= Allowance(Bucket(perSec as real, perSec as real, perSec as real, start), t.perSecond.last)
      && t.completed as real <= Allowance(Bucket(perMin as real, perMin as real, perMin as real / 60.0, start), t.perMinute.last)
  {
    var s := Initial(perSec, perMin, start);
    var t := After(s, events);
    CompletionsWithinBoth(s, events);
    assert t.completed as real <= Allowance(s.perSecond, t.perSecond.last);
    assert t.completed as real <= Allowance(s.perMinute, t.perMinute.last);
  }

  // ---- Callers do get through ----

  /** Callers `from` to `from + n - 1`, each trying its two buckets in turn at the reading `now`. */
  function EachInTurn(from: nat, n: nat, now: real): seq<Event>
    decreases n
  {
    if n == 0 then [] else [TrySecond(from, now), TryMinute(from, now)] + EachInTurn(from + 1, n - 1, now)
  }

  /** A caller that finds a token in both buckets passes both at once. */
  lemma CallerPasses(s: Limiter, c: Caller, now: real)
    requires s.perSecond.last == s.perMinute.last == now && s.perSecond.tokens >= 1.0 && s.perMinute.tokens >= 1.0 && c !in s.parked
    ensures var t := Next(Next(s, TrySecond(c, now)), TryMinute(c, now));
      && t.completed == s.completed + 1 && t.parked == s.parked
      && t.perSecond == s.perSecond.(tokens := s.perSecond.tokens - 1.0) && t.perMinute == s.perMinute.(tokens := s.perMinute.tokens - 1.0)
  {
    assert s.parked + {c} - {c} == s.parked;
  }

  lemma {:induction false} CallersPass(s: Limiter, from: nat, n: nat)
    requires s.perSecond.last == s.perMinute.last && s.perSecond.tokens >= n as real && s.perMinute.tokens >= n as real
    requires forall c: Caller :: from <= c < from + n ==> c !in s.parked
    ensures After(s, EachInTurn(from, n, s.perSecond.last)).completed == s.completed + n
    decreases n
  {
    if n > 0 {
      var now := s.perSecond.last;
      var events := EachInTurn(from, n, now);
      CallerPasses(s, from, now);
      var t := Next(Next(s, TrySecond(from, now)), TryMinute(from, now));
      assert events[1..][1..] == EachInTurn(from + 1, n - 1, now);
      assert events[0] == TrySecond(from, now) && events[1..][0] == TryMinute(from, now);
      CallersPass(t, from + 1, n - 1);
      assert After(s, events) == After(t, EachInTurn(from + 1, n - 1, now));
    }
  }

  /** The caps are met: as many callers as the smaller bucket holds can all complete at the start, without waiting. */
  lemma CapsAreMet(perSec: nat, perMin: nat, start: real, n: nat)
    requires n <= perSec && n <= perMin
    ensures After(Initial(perSec, perMin, start), EachInTurn(0, n, start)).completed == n
  {
    CallersPass(Initial(perSec, perMin, start), 0, n);
  }
}
