/** The credit ledger: reserving against the floor, giving back, and being told the balance. */
module Credits {
  import opened Clusters

  // ---- One call's HTTP attempts ----

  /** What one attempt meets. `Aborted` is a cancelled backoff, limiter wait or request build. */
  datatype Attempt =
    | Aborted
    | NetworkError
    | Response(status: int, remaining: Option<int>, bodyRead: bool)

  /** A 200 tells the balance even when its body then fails to read. */
  predicate TellsBalance(a: Attempt)
  {
    a.Response? && a.status == 200 && a.remaining.Some?
  }

  predicate Succeeds(a: Attempt)
  {
    a.Response? && a.bodyRead && a.status == 200
  }

  /** Network errors, unread bodies, 429s and server errors are tried again. */
  predicate Retried(a: Attempt)
  {
    a.NetworkError? || (a.Response? && (!a.bodyRead || a.status == 429 || a.status >= 500))
  }

  datatype Reply = Reply(ok: bool, balance: int)

  /** The attempts in order, until one succeeds, one is final, or they run out. */
  function Attempts(outcomes: seq<Attempt>, balance: int): Reply
    decreases |outcomes|
  {
    if |outcomes| == 0 then Reply(false, balance)
    else
      var a := outcomes[0];
      var told := if TellsBalance(a) then a.remaining.value else balance;
      if Succeeds(a) then Reply(true, told)
      else if Retried(a) then Attempts(outcomes[1..], told)
      else Reply(false, told)
  }

  // ---- What the attempts come to, status by status ----

  /** Each of the first `n` attempts was a network error, a reply that could not be read, a 429, or a status of 500 or more. */
  ghost predicate AllTriedAgain(outcomes: seq<Attempt>, n: int)
    requires n <= |outcomes|
  {
    forall k :: 0 <= k < n ==>
      outcomes[k].NetworkError? || (outcomes[k].Response? && (!outcomes[k].bodyRead || outcomes[k].status == 429 || outcomes[k].status >= 500))
  }

  /** Some attempt is a 200 that was read to its end, and all before it were tried again. */
  ghost predicate GetsThrough(outcomes: seq<Attempt>)
  {
    exists i :: 0 <= i < |outcomes| && ReadInFull(outcomes[i]) && AllTriedAgain(outcomes, i)
  }

  ghost predicate ReadInFull(a: Attempt)
  {
    a.Response? && a.status == 200 && a.bodyRead
  }

  /** The first `n` attempts are made: all but the last are tried again, and so is the last if there are no more. */
  ghost predicate Made(outcomes: seq<Attempt>, n: int)
  {
    && 0 <= n <= |outcomes| && AllTriedAgain(outcomes, n - 1)
    && (n < |outcomes| ==> n > 0 && !AllTriedAgain(outcomes, n))
  }

  /** No 200 from `from` up to `n` carries a balance. */
  ghost predicate NothingTold(outcomes: seq<Attempt>, from: int, n: int)
    requires 0 <= from && n <= |outcomes|
  {
    forall k :: from <= k < n && outcomes[k].Response? && outcomes[k].status == 200 ==> outcomes[k].remaining.None?
  }

  /** The `i`-th of the first `n` attempts is a 200 that told `after`, and nothing was told later. */
  ghost predicate ToldLastAt(outcomes: seq<Attempt>, i: int, n: int, after: int)
    requires n <= |outcomes|
  {
    && 0 <= i < n && outcomes[i].Response? && outcomes[i].status == 200 && outcomes[i].remaining == Some(after)
    && NothingTold(outcomes, i + 1, n)
  }

  /** `after` is the last balance told in the first `n` attempts, `before` if there is none. */
  ghost predicate LastTold(outcomes: seq<Attempt>, n: int, before: int, after: int)
    requires n <= |outcomes|
  {
    (after == before && NothingTold(outcomes, 0, n)) || exists i :: ToldLastAt(outcomes, i, n, after)
  }

  ghost predicate LeavesBalance(outcomes: seq<Attempt>, before: int, after: int)
  {
    exists n :: Made(outcomes, n) && LastTold(outcomes, n, before, after)
  }

  /** With nothing told yet but `before`, the rest of the attempts leave what all of them do. */
  lemma OneMade(outcomes: seq<Attempt>, n: int, before: int, told: int, after: int)
    requires |outcomes| > 0 && Retried(outcomes[0]) && !Succeeds(outcomes[0])
    requires told == if TellsBalance(outcomes[0]) then outcomes[0].remaining.value else before
    requires Made(outcomes[1..], n) && LastTold(outcomes[1..], n, told, after)
    ensures Made(outcomes, n + 1) && LastTold(outcomes, n + 1, before, after)
  {
    var rest := outcomes[1..];
    assert forall k :: 0 <= k < |rest| ==> outcomes[k + 1] == rest[k];
    assert forall k :: 0 < k < |outcomes| ==> outcomes[k] == rest[k - 1];
    if i :| ToldLastAt(rest, i, n, after) {
      assert ToldLastAt(outcomes, i + 1, n + 1, after);
    } else if TellsBalance(outcomes[0]) {
      assert ToldLastAt(outcomes, 0, n + 1, after);
    }
  }

  /** Whether the attempts get through, and the balance they leave. */
  lemma {:induction false} AttemptsMean(outcomes: seq<Attempt>, balance: int)
    ensures Attempts(outcomes, balance).ok <==> GetsThrough(outcomes)
    ensures LeavesBalance(outcomes, balance, Attempts(outcomes, balance).balance)
    decreases |outcomes|
  {
    if |outcomes| == 0 {
      assert Made(outcomes, 0) && LastTold(outcomes, 0, balance, balance);
    } else {
      var a, rest := outcomes[0], outcomes[1..];
      var told := if TellsBalance(a) then a.remaining.value else balance;
      if Retried(a) && !Succeeds(a) {
        AttemptsMean(rest, told);
        var n :| Made(rest, n) && LastTold(rest, n, told, Attempts(rest, told).balance);
        OneMade(outcomes, n, balance, told, Attempts(rest, told).balance);
        RestGetsThrough(outcomes);
      } else {
        assert TellsBalance(a) ==> ToldLastAt(outcomes, 0, 1, told);
        assert Made(outcomes, 1) && LastTold(outcomes, 1, balance, told);
        OneIsFinal(outcomes);
      }
    }
  }

  lemma RestGetsThrough(outcomes: seq<Attempt>)
    requires |outcomes| > 0 && Retried(outcomes[0]) && !Succeeds(outcomes[0])
    ensures GetsThrough(outcomes) <==> GetsThrough(outcomes[1..])
  {
    var rest := outcomes[1..];
    forall i | 0 <= i <= |rest| ensures AllTriedAgain(rest, i) <==> AllTriedAgain(outcomes, i + 1) {
      assert forall k :: 0 <= k < i ==> outcomes[k + 1] == rest[k];
      assert forall k :: 0 < k < i + 1 ==> outcomes[k] == rest[k - 1];
    }
    if i :| 0 <= i < |rest| && ReadInFull(rest[i]) && AllTriedAgain(rest, i) {
      assert ReadInFull(outcomes[i + 1]) && AllTriedAgain(outcomes, i + 1);
    }
    if i :| 0 <= i < |outcomes| && ReadInFull(outcomes[i]) && AllTriedAgain(outcomes, i) {
      assert i > 0 && ReadInFull(rest[i - 1]) && AllTriedAgain(rest, i - 1);
    }
  }

  lemma OneIsFinal(outcomes: seq<Attempt>)
    requires |outcomes| > 0 && (Succeeds(outcomes[0]) || !Retried(outcomes[0]))
    ensures GetsThrough(outcomes) <==> Succeeds(outcomes[0])
  {
    if Succeeds(outcomes[0]) {
      assert ReadInFull(outcomes[0]) && AllTriedAgain(outcomes, 0);
    }
  }

  // ---- One call ----

  datatype Outcome = Cached | CacheUndecodable | Offline | Expensive | BelowFloor | Failed | Undecodable | NotStored | Fetched

  predicate Known(balance: int)
  {
    balance >= 0
  }

  predicate Refused(balance: int, floor: int, cost: nat)
  {
    Known(balance) && balance - cost < floor
  }

  /** The balance after an unrefused call, and whether it succeeded. */
  function Called(balance: int, cost: nat, outcomes: seq<Attempt>): Reply
  {
    var held := if Known(balance) then balance - cost else balance;
    var reply := Attempts(outcomes, held);
    if !reply.ok && Known(balance) then Reply(false, reply.balance + cost) else reply
  }

  class Client {
    var creditsRemaining: int
    const creditFloor: int
    const allowExpensive: bool
    const offline: bool
    const maxRetries: nat

    constructor (floor: int, expensive: bool, off: bool, retries: nat)
      ensures creditsRemaining == -1 && creditFloor == floor && allowExpensive == expensive
      ensures offline == off && maxRetries == retries
    {
      creditsRemaining, creditFloor, allowExpensive, offline, maxRetries := -1, floor, expensive, off, retries;
    }

    method ReserveCredits(cost: nat) returns (reserved: bool, refused: bool)
      modifies this
      ensures refused <==> old(creditsRemaining) >= 0 && old(creditsRemaining) - cost < creditFloor
      ensures reserved <==> old(creditsRemaining) >= 0 && !refused
      ensures creditsRemaining == if reserved then old(creditsRemaining) - cost else old(creditsRemaining)
      ensures forall l: Ledger :: l.remaining == old(creditsRemaining) ==>
        NextLedger(l, creditFloor, Reserve(cost)).remaining == creditsRemaining
    {
      if creditsRemaining < 0 {
        return false, false;
      }
      if creditsRemaining - cost < creditFloor {
        return false, true;
      }
      creditsRemaining := creditsRemaining - cost;
      return true, false;
    }

    method ReleaseReservedCredits(cost: nat)
      modifies this
      ensures creditsRemaining == old(creditsRemaining) + cost
      ensures forall l: Ledger, t: nat :: l.remaining == old(creditsRemaining) && t < |l.tickets| && l.tickets[t] == Held(cost) ==>
        NextLedger(l, creditFloor, Finish(t, false)).remaining == creditsRemaining
    {
      creditsRemaining := creditsRemaining + cost;
    }

    method SetCreditsRemaining(v: int)
      modifies this
      ensures creditsRemaining == v
      ensures forall l: Ledger :: NextLedger(l, creditFloor, Told(v)).remaining == creditsRemaining
    {
      creditsRemaining := v;
    }

    method DoHTTP(outcomes: seq<Attempt>) returns (ok: bool)
      requires |outcomes| == maxRetries + 1
      modifies this
      ensures ok <==> GetsThrough(outcomes)
      ensures LeavesBalance(outcomes, old(creditsRemaining), creditsRemaining)
      ensures Reply(ok, creditsRemaining) == Attempts(outcomes, old(creditsRemaining))
    {
      AttemptsMean(outcomes, creditsRemaining);
      var attempt := 0;
      while attempt <= maxRetries
        invariant attempt <= |outcomes|
        invariant Attempts(outcomes[attempt..], creditsRemaining) == Attempts(outcomes, old(creditsRemaining))
      {
        var a := outcomes[attempt];
        assert outcomes[attempt..][1..] == outcomes[attempt + 1..];
        if a.Aborted? {
          return false;
        }
        if a.Response? {
          if a.status == 200 && a.remaining.Some? {
            SetCreditsRemaining(a.remaining.value);
          }
          if a.bodyRead {
            if a.status == 200 {
              return true;
            }
            if a.status != 429 && a.status < 500 {
              return false;
            }
          }
        }
        attempt := attempt + 1;
      }
      ok := false;
    }

    /**
     One call from the cache lookup to the given-back reservation, with nothing
     else running. A reply that does not decode or cannot be stored is an error
     of a call that was paid for, so nothing is given back.
     */
    method Do(hit: bool, cost: nat, outcomes: seq<Attempt>, decodes: bool, stores: bool) returns (o: Outcome)
      requires |outcomes| == maxRetries + 1
      modifies this
      ensures hit ==> o == (if decodes then Cached else CacheUndecodable)
      ensures !hit && offline ==> o == Offline
      ensures !hit && !offline && (cost <= 1 || allowExpensive) ==>
        && (o == BelowFloor <==> old(creditsRemaining) >= 0 && old(creditsRemaining) - cost < creditFloor)
        && (o != BelowFloor ==>
          && o == (if !GetsThrough(outcomes) then Failed else if !decodes then Undecodable else if !stores then NotStored else Fetched)
          && (old(creditsRemaining) < 0 ==> LeavesBalance(outcomes, old(creditsRemaining), creditsRemaining))
          && (old(creditsRemaining) >= 0 ==>
                LeavesBalance(outcomes, old(creditsRemaining) - cost, creditsRemaining - (if o == Failed then cost else 0))))
      ensures !hit && !offline && cost > 1 && !allowExpensive ==> o == Expensive
      ensures !hit && !offline && (cost <= 1 || allowExpensive) ==>
        if Refused(old(creditsRemaining), creditFloor, cost) then o == BelowFloor
        else
          var r := Called(old(creditsRemaining), cost, outcomes);
          && o == (if !r.ok then Failed else if !decodes then Undecodable else if !stores then NotStored else Fetched)
          && creditsRemaining == r.balance
      ensures o in {Cached, CacheUndecodable, Offline, Expensive, BelowFloor} ==> creditsRemaining == old(creditsRemaining)
    {
      if hit {
        return if decodes then Cached else CacheUndecodable;
      }
      if offline {
        return Offline;
      }
      if cost > 1 && !allowExpensive {
        return Expensive;
      }
      var reserved, refused := ReserveCredits(cost);
      if refused {
        return BelowFloor;
      }
      var ok := DoHTTP(outcomes);
      if !ok {
        if reserved {
          ReleaseReservedCredits(cost);
        }
        return Failed;
      }
      if !decodes {
        return Undecodable;
      }
      if !stores {
        return NotStored;
      }
      o := Fetched;
    }
  }

  // ---- One call in flight, against the server's own balance ----

  /** The server charges a call exactly when its 200 is fully read. */
  function Charge(outcomes: seq<Attempt>, cost: nat): nat
  {
    if Attempts(outcomes, 0).ok then cost else 0
  }

  /** Every balance the attempts tell is the server's at that moment. */
  ghost predicate ExactHeaders(outcomes: seq<Attempt>, server: int, cost: nat)
    decreases |outcomes|
  {
    |outcomes| > 0 ==>
      var a := outcomes[0];
      && (TellsBalance(a) ==> a.remaining.value == server - (if Succeeds(a) then cost else 0))
      && (Retried(a) ==> ExactHeaders(outcomes[1..], server, cost))
  }

  /** Whether the last balance told came from an unread 200: it is then stale once the call is charged or given back. */
  predicate EndsOnStaleBalance(outcomes: seq<Attempt>, stale: bool)
    decreases |outcomes|
  {
    if |outcomes| == 0 then stale
    else
      var a := outcomes[0];
      if Succeeds(a) then stale && !TellsBalance(a)
      else if Retried(a) then EndsOnStaleBalance(outcomes[1..], stale || TellsBalance(a))
      else stale || TellsBalance(a)
  }

  lemma OkIgnoresBalance(outcomes: seq<Attempt>, b: int, c: int)
    ensures Attempts(outcomes, b).ok == Attempts(outcomes, c).ok
    decreases |outcomes|
  {
    if |outcomes| > 0 && Retried(outcomes[0]) && !Succeeds(outcomes[0]) {
      var t := outcomes[0];
      OkIgnoresBalance(outcomes[1..], if TellsBalance(t) then t.remaining.value else b, if TellsBalance(t) then t.remaining.value else c);
    }
  }

  /** With exact headers, what the attempts leave as the balance. */
  lemma {:induction false} BalanceAfterAttempts(outcomes: seq<Attempt>, server: int, cost: nat, stale: bool)
    requires ExactHeaders(outcomes, server, cost)
    ensures
      var r := Attempts(outcomes, if stale then server else server - cost);
      r.balance == if EndsOnStaleBalance(outcomes, stale) then server else server - cost
    decreases |outcomes|
  {
    if |outcomes| > 0 && !Succeeds(outcomes[0]) && Retried(outcomes[0]) {
      BalanceAfterAttempts(outcomes[1..], server, cost, stale || TellsBalance(outcomes[0]));
    }
  }

  /**
   With one call in flight and exact headers, a guarded call leaves the client's
   balance equal to the server's if and only if it does not end on a balance
   told by a 200 whose body was never read. Such a balance already includes the
   reservation: it is given back a second time on failure, and not deducted on a
   success that tells nothing.
   */
  lemma GuardedCallIsExactIff(server: int, floor: int, cost: nat, outcomes: seq<Attempt>)
    requires server >= 0 && !Refused(server, floor, cost) && ExactHeaders(outcomes, server, cost)
    ensures Called(server, cost, outcomes).balance == server - Charge(outcomes, cost)
        <==> cost == 0 || !EndsOnStaleBalance(outcomes, false)
    ensures EndsOnStaleBalance(outcomes, false) ==> Called(server, cost, outcomes).balance == server - Charge(outcomes, cost) + cost
    ensures server - Charge(outcomes, cost) >= floor
  {
    BalanceAfterAttempts(outcomes, server, cost, false);
    OkIgnoresBalance(outcomes, 0, server - cost);
  }

  datatype SerialCall = SerialCall(cost: nat, outcomes: seq<Attempt>)

  /** The two balances, and the lowest the server stood at right after a guarded call. */
  datatype Accounts = Accounts(client: int, server: int, guardedLow: Option<int>)

  function Lower(low: Option<int>, v: int): Option<int>
  {
    if low.None? || v < low.value then Some(v) else low
  }

  function Step(a: Accounts, floor: int, c: SerialCall): Accounts
  {
    if Refused(a.client, floor, c.cost) then a
    else
      var server := a.server - Charge(c.outcomes, c.cost);
      Accounts(Called(a.client, c.cost, c.outcomes).balance, server, if Known(a.client) then Lower(a.guardedLow, server) else a.guardedLow)
  }

  function Serial(a: Accounts, floor: int, calls: seq<SerialCall>): Accounts
    decreases |calls|
  {
    if |calls| == 0 then a else Serial(Step(a, floor, calls[0]), floor, calls[1..])
  }

  /** The client knows the server's balance, or knows none. */
  predicate InStep(a: Accounts)
  {
    !Known(a.client) || a.client == a.server
  }

  predicate FloorKept(a: Accounts, floor: int)
  {
    a.guardedLow.Some? ==> a.guardedLow.value >= floor
  }

  /**
   The call ends on a balance told by an unread 200 and costs something. An
   unguarded call has nothing to give back, so for it that only matters when it
   is charged after all.
   */
  predicate Spoils(guarded: bool, c: SerialCall)
  {
    c.cost > 0 && EndsOnStaleBalance(c.outcomes, false) && (guarded || Charge(c.outcomes, c.cost) > 0)
  }

  /** Every call that is made meets exact headers and does not spoil the balance. */
  ghost predicate CleanRun(a: Accounts, floor: int, calls: seq<SerialCall>)
    decreases |calls|
  {
    |calls| > 0 ==>
      && (!Refused(a.client, floor, calls[0].cost) ==>
            ExactHeaders(calls[0].outcomes, a.server, calls[0].cost) && !Spoils(Known(a.client), calls[0]))
      && CleanRun(Step(a, floor, calls[0]), floor, calls[1..])
  }

  /** A call from a balance that is right leaves it right exactly when it does not spoil it, and too high by its cost otherwise. */
  lemma StepStaysInStepIff(a: Accounts, floor: int, c: SerialCall)
    requires InStep(a) && FloorKept(a, floor)
    requires !Refused(a.client, floor, c.cost) && ExactHeaders(c.outcomes, a.server, c.cost)
    ensures var z := Step(a, floor, c);
      && FloorKept(z, floor)
      && (Spoils(Known(a.client), c) ==> z.client == z.server + c.cost)
      && (!Spoils(Known(a.client), c) ==> InStep(z))
  {
    if Known(a.client) {
      GuardedCallIsExactIff(a.server, floor, c.cost, c.outcomes);
    } else {
      OkIgnoresBalance(c.outcomes, 0, a.client);
      UnguardedBalance(c.outcomes, a.client, a.server, c.cost, false);
    }
  }

  /** What an unguarded call leaves as the balance: nothing told, the balance before the call, or the one after it. */
  lemma {:induction false} UnguardedBalance(outcomes: seq<Attempt>, balance: int, server: int, cost: nat, stale: bool)
    requires ExactHeaders(outcomes, server, cost) && (stale ==> balance == server)
    ensures var r := Attempts(outcomes, balance);
      if EndsOnStaleBalance(outcomes, stale) then r.balance == server
      else (!stale && r.balance == balance) || (r.ok && r.balance == server - cost)
    decreases |outcomes|
  {
    if |outcomes| > 0 && !Succeeds(outcomes[0]) && Retried(outcomes[0]) {
      var t := outcomes[0];
      UnguardedBalance(outcomes[1..], if TellsBalance(t) then t.remaining.value else balance, server, cost, stale || TellsBalance(t));
    }
  }

  /**
   Over a whole serial run of such calls the client stays in step, and no guarded
   call leaves the server below the floor.
   */
  lemma {:induction false} SerialRunStaysAboveFloor(a: Accounts, floor: int, calls: seq<SerialCall>)
    requires CleanRun(a, floor, calls) && InStep(a) && FloorKept(a, floor)
    ensures InStep(Serial(a, floor, calls)) && FloorKept(Serial(a, floor, calls), floor)
    decreases |calls|
  {
    if |calls| > 0 {
      var c := calls[0];
      if !Refused(a.client, floor, c.cost) {
        StepStaysInStepIff(a, floor, c);
      }
      SerialRunStaysAboveFloor(Step(a, floor, c), floor, calls[1..]);
    }
  }

  /** A call that succeeds at once and tells nothing. */
  function Silent(cost: nat): SerialCall
  {
    SerialCall(cost, [Response(200, None, true)])
  }

  lemma SilentIsClean(a: Accounts, floor: int, cost: nat)
    requires Known(a.client) && !Refused(a.client, floor, cost)
    ensures CleanRun(a, floor, [Silent(cost)])
    ensures Serial(a, floor, [Silent(cost)]) == Accounts(a.client - cost, a.server - cost, Lower(a.guardedLow, a.server - cost))
  {
    var c := Silent(cost);
    assert Attempts(c.outcomes, a.client - cost) == Reply(true, a.client - cost) && Charge(c.outcomes, cost) == cost;
    assert [c][1..] == [];
    assert CleanRun(Step(a, floor, c), floor, []);
    assert Serial(Step(a, floor, c), floor, []) == Step(a, floor, c);
  }

  /**
   When the floor holds with one call in flight: after a call from a right
   balance, every further run of clean calls keeps every guarded call's server
   balance at or above the floor exactly when that call did not spoil the
   balance. When it did, one silent call costing all that seems to be left
   above the floor takes the server below it.
   */
  lemma FloorHoldsAfterCallIff(a: Accounts, floor: nat, c: SerialCall)
    requires InStep(a) && a.server >= floor && FloorKept(a, floor)
    requires !Refused(a.client, floor, c.cost) && ExactHeaders(c.outcomes, a.server, c.cost)
    ensures (forall calls :: CleanRun(Step(a, floor, c), floor, calls) ==> FloorKept(Serial(Step(a, floor, c), floor, calls), floor))
        <==> !Spoils(Known(a.client), c)
  {
    var z := Step(a, floor, c);
    StepStaysInStepIff(a, floor, c);
    if !Spoils(Known(a.client), c) {
      forall calls | CleanRun(z, floor, calls) ensures FloorKept(Serial(z, floor, calls), floor) {
        SerialRunStaysAboveFloor(z, floor, calls);
      }
    } else {
      SpoiledIsAtLeastFloor(a, floor, c);
      SilentIsClean(z, floor, z.client - floor);
      assert z.server - (z.client - floor) == floor - c.cost;
    }
  }

  lemma SpoiledIsAtLeastFloor(a: Accounts, floor: nat, c: SerialCall)
    requires InStep(a) && a.server >= floor && !Refused(a.client, floor, c.cost) && Spoils(Known(a.client), c)
    requires Step(a, floor, c).client == Step(a, floor, c).server + c.cost
    ensures Step(a, floor, c).client >= floor
  {
  }

  /** The server's true balance on a 200 that could not be read is enough to spoil a guarded call that then fails. */
  lemma UnreadReplySpoils(server: int, cost: nat)
    requires cost > 0
    ensures var c := SerialCall(cost, [Response(200, Some(server), false)]);
      ExactHeaders(c.outcomes, server, cost) && Spoils(true, c) && Charge(c.outcomes, cost) == 0
  {
    var a := Response(200, Some(server), false);
    assert [a][1..] == [] && EndsOnStaleBalance([], true) && Attempts([], server) == Reply(false, server);
  }

  // ---- Any number of workers at once ----

  /**
   A call: holding a reservation, in flight without one because the balance was
   unknown, or over, with its reservation spent or without one.
   */
  datatype Ticket = Held(cost: nat) | Unguarded(cost: nat) | Spent(cost: nat) | Over

  /** The client's balance, the server's, and the calls so far. */
  datatype Ledger = Ledger(remaining: int, server: int, tickets: seq<Ticket>)

  datatype LedgerEvent =
    | Reserve(price: nat)
    | Finish(ticket: nat, succeeded: bool)   // the server charges a call as it succeeds
    | Told(balance: int)

  function NextLedger(l: Ledger, floor: int, e: LedgerEvent): Ledger
  {
    match e
    case Reserve(cost) =>
      if !Known(l.remaining) then l.(tickets := l.tickets + [Unguarded(cost)])
      else if Refused(l.remaining, floor, cost) then l
      else l.(remaining := l.remaining - cost, tickets := l.tickets + [Held(cost)])
    case Finish(t, ok) =>
      if t >= |l.tickets| then l
      else Finished(l, t, ok)
    case Told(n) => l.(remaining := n)
  }

  function Finished(l: Ledger, t: nat, ok: bool): Ledger
    requires t < |l.tickets|
  {
    match l.tickets[t]
    case Held(cost) =>
      if ok then l.(server := l.server - cost, tickets := l.tickets[t := Spent(cost)])
      else l.(remaining := l.remaining + cost, tickets := l.tickets[t := Over])
    case Unguarded(cost) => l.(server := if ok then l.server - cost else l.server, tickets := l.tickets[t := Over])
    case _ => l
  }

  function AfterLedger(l: Ledger, floor: int, events: seq<LedgerEvent>): Ledger
    decreases |events|
  {
    if |events| == 0 then l else AfterLedger(NextLedger(l, floor, events[0]), floor, events[1..])
  }

  predicate NoneTold(events: seq<LedgerEvent>)
  {
    forall e :: e in events ==> !e.Told?
  }

  function Worth(t: Ticket): nat
  {
    match t
    case Held(c) => c
    case Spent(c) => c
    case _ => 0
  }

  /** What a call in flight may still be charged. */
  function Pending(t: Ticket): nat
  {
    match t
    case Held(c) => c
    case Unguarded(c) => c
    case _ => 0
  }

  function Sum(tickets: seq<Ticket>, weight: Ticket -> nat): nat
  {
    if |tickets| == 0 then 0 else weight(tickets[0]) + Sum(tickets[1..], weight)
  }

  lemma SumAppend(tickets: seq<Ticket>, t: Ticket, weight: Ticket -> nat)
    ensures Sum(tickets + [t], weight) == Sum(tickets, weight) + weight(t)
  {
    if |tickets| > 0 {
      assert (tickets + [t])[1..] == tickets[1..] + [t];
      SumAppend(tickets[1..], t, weight);
    }
  }

  lemma SumUpdate(tickets: seq<Ticket>, i: nat, t: Ticket, weight: Ticket -> nat)
    requires i < |tickets|
    ensures Sum(tickets[i := t], weight) == Sum(tickets, weight) - weight(tickets[i]) + weight(t)
  {
    if i > 0 {
      assert tickets[i := t][1..] == tickets[1..][i - 1 := t];
      SumUpdate(tickets[1..], i - 1, t, weight);
    } else {
      assert tickets[i := t][1..] == tickets[1..];
    }
  }

  /** How one step other than a told balance moves the sums. */
  lemma NextSums(l: Ledger, floor: int, e: LedgerEvent)
    requires !e.Told?
    ensures var m := NextLedger(l, floor, e);
      && m.remaining + Sum(m.tickets, Worth) == l.remaining + Sum(l.tickets, Worth)
      && (Known(l.remaining) ==> m.server - m.remaining - Sum(m.tickets, Pending) >= l.server - l.remaining - Sum(l.tickets, Pending))
      && (l.remaining >= floor ==> m.remaining >= floor)
  {
    match e {
      case Reserve(cost) =>
        var t := if Known(l.remaining) then Held(cost) else Unguarded(cost);
        SumAppend(l.tickets, t, Worth);
        SumAppend(l.tickets, t, Pending);
      case Finish(t, ok) =>
        if t < |l.tickets| {
          var after := Finished(l, t, ok).tickets[t];
          SumUpdate(l.tickets, t, after, Worth);
          SumUpdate(l.tickets, t, after, Pending);
          assert l.tickets[t := l.tickets[t]] == l.tickets;
        }
    }
  }

  /**
   Between two balances told, under any interleaving: the remaining balance plus
   everything held or spent is constant, and a balance at or above the floor
   never goes below it.
   */
  lemma {:induction false} LedgerConserves(l: Ledger, floor: int, events: seq<LedgerEvent>)
    requires NoneTold(events)
    ensures var m := AfterLedger(l, floor, events);
      && m.remaining + Sum(m.tickets, Worth) == l.remaining + Sum(l.tickets, Worth)
      && (l.remaining >= floor ==> m.remaining >= floor)
    decreases |events|
  {
    if |events| > 0 {
      assert events[0] in events && forall x :: x in events[1..] ==> x in events;
      NextSums(l, floor, events[0]);
      LedgerConserves(NextLedger(l, floor, events[0]), floor, events[1..]);
    }
  }

  // ---- The server under any interleaving ----

  /** The server can pay for every call in flight and still hold what the client believes remains. */
  predicate Solvent(l: Ledger)
  {
    l.remaining + Sum(l.tickets, Pending) <= l.server
  }

  /** Telling the server's own balance leaves the ledger solvent exactly when nothing chargeable is in flight. */
  lemma ExactToldKeepsSolventIff(l: Ledger, floor: int)
    ensures Solvent(NextLedger(l, floor, Told(l.server))) <==> Sum(l.tickets, Pending) == 0
  {
  }

  /** Each balance told is the server's, and told with nothing chargeable in flight. */
  ghost predicate ToldAtRest(l: Ledger, floor: int, events: seq<LedgerEvent>)
    decreases |events|
  {
    |events| > 0 ==>
      && (events[0].Told? ==> events[0].balance == l.server && Sum(l.tickets, Pending) == 0)
      && ToldAtRest(NextLedger(l, floor, events[0]), floor, events[1..])
  }

  /** With balances told only at rest, no interleaving takes the server below the floor. */
  lemma {:induction false} ServerStaysAboveFloor(l: Ledger, floor: nat, events: seq<LedgerEvent>)
    requires Solvent(l) && l.remaining >= floor && ToldAtRest(l, floor, events)
    ensures var m := AfterLedger(l, floor, events);
      Solvent(m) && m.remaining >= floor && m.server >= floor
    decreases |events|
  {
    if |events| > 0 {
      if events[0].Told? {
        ExactToldKeepsSolventIff(l, floor);
      } else {
        NextSums(l, floor, events[0]);
      }
      ServerStaysAboveFloor(NextLedger(l, floor, events[0]), floor, events[1..]);
    }
  }

  /** Every call started so far succeeds, from the `i`-th on. */
  function AllSucceed(n: nat, i: nat): seq<LedgerEvent>
    requires i <= n
  {
    seq(n - i, k requires 0 <= k < n - i => Finish(i + k, true))
  }

  lemma {:induction false} AllSucceedCharges(l: Ledger, floor: int, i: nat)
    requires i <= |l.tickets| && forall k :: 0 <= k < i ==> Pending(l.tickets[k]) == 0
    ensures AfterLedger(l, floor, AllSucceed(|l.tickets|, i)).server == l.server - Sum(l.tickets, Pending)
    decreases |l.tickets| - i
  {
    if i == |l.tickets| {
      NothingPending(l.tickets);
    } else {
      var events := AllSucceed(|l.tickets|, i);
      var m := NextLedger(l, floor, Finish(i, true));
      assert events[0] == Finish(i, true) && events[1..] == AllSucceed(|l.tickets|, i + 1);
      SumUpdate(l.tickets, i, m.tickets[i], Pending);
      assert l.tickets[i := l.tickets[i]] == l.tickets;
      AllSucceedCharges(m, floor, i + 1);
    }
  }

  lemma NothingPending(tickets: seq<Ticket>)
    requires forall k :: 0 <= k < |tickets| ==> Pending(tickets[k]) == 0
    ensures Sum(tickets, Pending) == 0
  {
  }

  /**
   When a balance told in flight is safe: after the server's own balance is told,
   every interleaving without another told balance keeps the server at or above
   the floor exactly when nothing chargeable was in flight. Otherwise one
   reservation of all that then seems to be left above the floor is admitted,
   and with every call in flight succeeding the server passes the floor by
   exactly what was in flight.
   */
  lemma ToldIsSafeIff(l: Ledger, floor: nat)
    requires l.server >= floor
    ensures var m := NextLedger(l, floor, Told(l.server));
      (forall events :: NoneTold(events) ==> AfterLedger(m, floor, events).server >= floor)
        <==> Sum(l.tickets, Pending) == 0
  {
    var m := NextLedger(l, floor, Told(l.server));
    if Sum(l.tickets, Pending) == 0 {
      forall events | NoneTold(events)
        ensures AfterLedger(m, floor, events).server >= floor
      {
        NothingToldIsAtRest(m, floor, events);
        ServerStaysAboveFloor(m, floor, events);
      }
    } else {
      var n := NextLedger(m, floor, Reserve(l.server - floor));
      var events := [Reserve(l.server - floor)] + AllSucceed(|n.tickets|, 0);
      SumAppend(l.tickets, Held(l.server - floor), Pending);
      AllSucceedCharges(n, floor, 0);
      assert events[1..] == AllSucceed(|n.tickets|, 0);
      assert AfterLedger(m, floor, events).server == floor - Sum(l.tickets, Pending);
    }
  }

  lemma {:induction false} NothingToldIsAtRest(l: Ledger, floor: int, events: seq<LedgerEvent>)
    requires NoneTold(events)
    ensures ToldAtRest(l, floor, events)
    decreases |events|
  {
    if |events| > 0 {
      assert events[0] in events && forall x :: x in events[1..] ==> x in events;
      NothingToldIsAtRest(NextLedger(l, floor, events[0]), floor, events[1..]);
    }
  }

  /**
   A concrete case: three guarded one-credit calls start from 102 with a floor of
   100. The first to finish is told 101 while the second is in flight, which
   readmits a third; all three are charged and 99 is left.
   */
  lemma ToldBalanceErasesReservations()
    ensures
      var events := [Reserve(1), Reserve(1), Finish(0, true), Told(101), Reserve(1), Finish(1, true), Finish(2, true)];
      AfterLedger(Ledger(102, 102, []), 100, events) == Ledger(100, 99, [Spent(1), Spent(1), Spent(1)])
  {
    var e := [Reserve(1), Reserve(1), Finish(0, true), Told(101), Reserve(1), Finish(1, true), Finish(2, true)];
    var l0, l1, l2 := Ledger(102, 102, []), Ledger(101, 102, [Held(1)]), Ledger(100, 102, [Held(1), Held(1)]);
    var l3, l4 := Ledger(100, 101, [Spent(1), Held(1)]), Ledger(101, 101, [Spent(1), Held(1)]);
    var l5, l6 := Ledger(100, 101, [Spent(1), Held(1), Held(1)]), Ledger(100, 100, [Spent(1), Spent(1), Held(1)]);
    var l7 := Ledger(100, 99, [Spent(1), Spent(1), Spent(1)]);
    assert AfterLedger(l7, 100, e[7..]) == l7;
    Unroll(l6, l7, 100, e, 6);
    Unroll(l5, l6, 100, e, 5);
    Unroll(l4, l5, 100, e, 4);
    Unroll(l3, l4, 100, e, 3);
    Unroll(l2, l3, 100, e, 2);
    Unroll(l1, l2, 100, e, 1);
    Unroll(l0, l1, 100, e, 0);
    assert e[0..] == e;
  }

  lemma Unroll(l: Ledger, m: Ledger, floor: int, events: seq<LedgerEvent>, i: nat)
    requires i < |events| && NextLedger(l, floor, events[i]) == m
    ensures AfterLedger(l, floor, events[i..]) == AfterLedger(m, floor, events[i + 1..])
  {
    assert events[i..][1..] == events[i + 1..];
  }
}
