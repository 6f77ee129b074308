/**
 The worker pool as a step system: one item at a time until the credit balance
 is known, at most `concurrency` at once afterwards.
 */
module Pool {
  import Credits

  datatype Phase = OneByOne | Dispatching | Waiting | Returned

  /**
   An item in its function, possibly with a credit reservation of its current
   call; then with its function returned but its semaphore slot still taken; then with the slot given
   back but the wait group not signed off; then done.
   */
  datatype Stage = Running(reserved: bool) | Releasing | Exiting | Done

  /** `stages` holds one entry per item started, in the order of the items. */
  datatype Pool = Pool(
    items: nat,
    concurrency: nat,
    floor: nat,
    phase: Phase,
    stages: seq<Stage>,
    balance: int,          // negative while unknown
    cancelled: bool)

  datatype Event =
    | Advance                              // the pool's own goroutine takes its next step
    | StopDispatch                         // the select sees the cancellation
    | FnReturns(item: nat)
    | GiveBackSlot(item: nat)
    | SignOff(item: nat)
    | Cancel
    | Reserve(item: nat, cost: nat)
    | Release(item: nat, cost: nat)        // a call that failed gives its reservation back
    | Fetched(item: nat)                   // a call that succeeded has spent it
    | Told(item: nat, remaining: nat)      // a balance header, which leaves the reservation as it is

  function Initial(items: nat, concurrency: nat, floor: nat, balance: int): Pool
  {
    Pool(items, concurrency, floor, OneByOne, [], balance, false)
  }

  // ---- Counting items by stage ----

  function InCall(t: Stage): nat { if t.Running? then 1 else 0 }

  function InSlot(t: Stage): nat { if t.Running? || t.Releasing? then 1 else 0 }

  function Open(t: Stage): nat { if t.Done? then 0 else 1 }

  function Holding(t: Stage): nat { if t.Running? && t.reserved then 1 else 0 }

  function Count(stages: seq<Stage>, weight: Stage -> nat): nat
  {
    if |stages| == 0 then 0 else weight(stages[0]) + Count(stages[1..], weight)
  }

  lemma CountAppend(stages: seq<Stage>, t: Stage, weight: Stage -> nat)
    ensures Count(stages + [t], weight) == Count(stages, weight) + weight(t)
  {
    if |stages| > 0 {
      assert (stages + [t])[1..] == stages[1..] + [t];
      CountAppend(stages[1..], t, weight);
    }
  }

  lemma CountUpdate(stages: seq<Stage>, i: nat, t: Stage, weight: Stage -> nat)
    requires i < |stages|
    ensures Count(stages[i := t], weight) == Count(stages, weight) - weight(stages[i]) + weight(t)
  {
    if i > 0 {
      assert stages[i := t][1..] == stages[1..][i - 1 := t];
      CountUpdate(stages[1..], i - 1, t, weight);
    } else {
      assert stages[i := t][1..] == stages[1..];
    }
  }

  lemma CountOrder(stages: seq<Stage>)
    ensures Count(stages, Holding) <= Count(stages, InCall) <= Count(stages, InSlot) <= Count(stages, Open)
    ensures Count(stages, Open) == 0 ==> forall i :: 0 <= i < |stages| ==> stages[i] == Done
  {
  }

  // ---- The steps ----

  predicate Is(s: Pool, i: nat, t: Stage)
  {
    i < |s.stages| && s.stages[i] == t
  }

  predicate IsRunning(s: Pool, i: nat)
  {
    i < |s.stages| && s.stages[i].Running?
  }

  function Start(s: Pool): Pool
  {
    s.(stages := s.stages + [Running(false)])
  }

  function Move(s: Pool, i: nat, t: Stage): Pool
    requires i < |s.stages|
  {
    s.(stages := s.stages[i := t])
  }

  function AdvanceStep(s: Pool): Pool
  {
    match s.phase
    case OneByOne =>
      if Count(s.stages, InCall) > 0 then s
      else if |s.stages| < s.items && s.balance < 0 then
        if s.cancelled then s.(phase := Returned) else Start(s)
      else s.(phase := Dispatching)
    case Dispatching =>
      if |s.stages| >= s.items then s.(phase := Waiting)
      else if Count(s.stages, InSlot) < s.concurrency then Start(s)
      else s
    case Waiting =>
      if Count(s.stages, Open) == 0 then s.(phase := Returned) else s
    case Returned => s
  }

  /** An event that cannot happen in `s` changes nothing. */
  function Next(s: Pool, e: Event): Pool
  {
    match e
    case Advance => AdvanceStep(s)
    case StopDispatch =>
      if s.phase == Dispatching && s.cancelled && |s.stages| < s.items then s.(phase := Waiting) else s
    case FnReturns(i) =>
      if IsRunning(s, i) then Move(s, i, if s.phase == OneByOne then Done else Releasing) else s
    case GiveBackSlot(i) => if Is(s, i, Releasing) then Move(s, i, Exiting) else s
    case SignOff(i) => if Is(s, i, Exiting) then Move(s, i, Done) else s
    case Cancel => s.(cancelled := true)
    case Reserve(i, cost) =>
      if Is(s, i, Running(false)) && s.balance >= 0 && s.balance - cost >= s.floor
      then Move(s, i, Running(true)).(balance := s.balance - cost) else s
    case Release(i, cost) =>
      if Is(s, i, Running(true)) then Move(s, i, Running(false)).(balance := s.balance + cost) else s
    case Fetched(i) => if Is(s, i, Running(true)) then Move(s, i, Running(false)) else s
    case Told(i, n) => if IsRunning(s, i) then s.(balance := n) else s
  }

  function After(s: Pool, events: seq<Event>): Pool
    decreases |events|
  {
    if |events| == 0 then s else After(Next(s, events[0]), events[1..])
  }

  /** What the workers' calls do to the balance is what they do to the credit ledger. */
  lemma BalanceIsLedger(s: Pool, i: nat, cost: nat, told: nat, l: Credits.Ledger, t: nat)
    requires l.remaining == s.balance
    ensures Is(s, i, Running(false)) && s.balance >= 0 ==>
      Next(s, Reserve(i, cost)).balance == Credits.NextLedger(l, s.floor, Credits.Reserve(cost)).remaining
    ensures Is(s, i, Running(true)) && t < |l.tickets| && l.tickets[t] == Credits.Held(cost) ==>
      Next(s, Release(i, cost)).balance == Credits.NextLedger(l, s.floor, Credits.Finish(t, false)).remaining
      && Next(s, Fetched(i)).balance == Credits.NextLedger(l, s.floor, Credits.Finish(t, true)).remaining
    ensures IsRunning(s, i) ==> Next(s, Told(i, told)).balance == Credits.NextLedger(l, s.floor, Credits.Told(told)).remaining
  {
  }

  // ---- What every step keeps ----

  ghost predicate Inv(s: Pool)
  {
    && s.concurrency >= 1 && |s.stages| <= s.items
    && Count(s.stages, InSlot) <= s.concurrency
    && (Count(s.stages, Holding) > 0 ==> s.balance >= 0)
    && (s.phase == OneByOne ==> Count(s.stages, InSlot) <= 1 && Count(s.stages, Open) == Count(s.stages, InCall))
    && (s.phase in {Dispatching, Waiting} ==> s.balance >= 0 || (Count(s.stages, InSlot) == 0 && |s.stages| == s.items))
    && (s.phase in {Waiting, Returned} ==> |s.stages| == s.items || s.cancelled)
    && (s.phase == Returned ==> Count(s.stages, Open) == 0)
  }

  lemma StartCounts(s: Pool)
    ensures Count(Start(s).stages, InCall) == Count(s.stages, InCall) + 1
    ensures Count(Start(s).stages, InSlot) == Count(s.stages, InSlot) + 1
    ensures Count(Start(s).stages, Open) == Count(s.stages, Open) + 1
    ensures Count(Start(s).stages, Holding) == Count(s.stages, Holding)
  {
    CountAppend(s.stages, Running(false), InCall);
    CountAppend(s.stages, Running(false), InSlot);
    CountAppend(s.stages, Running(false), Open);
    CountAppend(s.stages, Running(false), Holding);
  }

  lemma MoveCounts(s: Pool, i: nat, t: Stage)
    requires i < |s.stages|
    ensures Count(Move(s, i, t).stages, InCall) == Count(s.stages, InCall) - InCall(s.stages[i]) + InCall(t)
    ensures Count(Move(s, i, t).stages, InSlot) == Count(s.stages, InSlot) - InSlot(s.stages[i]) + InSlot(t)
    ensures Count(Move(s, i, t).stages, Open) == Count(s.stages, Open) - Open(s.stages[i]) + Open(t)
    ensures Count(Move(s, i, t).stages, Holding) == Count(s.stages, Holding) - Holding(s.stages[i]) + Holding(t)
  {
    CountUpdate(s.stages, i, t, InCall);
    CountUpdate(s.stages, i, t, InSlot);
    CountUpdate(s.stages, i, t, Open);
    CountUpdate(s.stages, i, t, Holding);
  }

  lemma NextKeepsInv(s: Pool, e: Event)
    requires Inv(s)
    ensures Inv(Next(s, e))
  {
    if e.Advance? || e.StopDispatch? || e.Cancel? {
      OwnStepKeepsInv(s, e);
    } else if e.item < |s.stages| {
      match e {
        case FnReturns(i) => MoveKeepsInv(s, i, if s.phase == OneByOne then Done else Releasing, s.balance);
        case GiveBackSlot(i) => MoveKeepsInv(s, i, Exiting, s.balance);
        case SignOff(i) => MoveKeepsInv(s, i, Done, s.balance);
        case Reserve(i, cost) => MoveKeepsInv(s, i, Running(true), s.balance - cost);
        case Release(i, cost) => MoveKeepsInv(s, i, Running(false), s.balance + cost);
        case Fetched(i) => MoveKeepsInv(s, i, Running(false), s.balance);
        case Told(i, n) =>
          MoveKeepsInv(s, i, s.stages[i], n);
          assert s.stages[i := s.stages[i]] == s.stages;
      }
    }
  }

  lemma OwnStepKeepsInv(s: Pool, e: Event)
    requires Inv(s) && (e.Advance? || e.StopDispatch? || e.Cancel?)
    ensures Inv(Next(s, e))
  {
    CountOrder(s.stages);
    StartCounts(s);
  }

  /** What an item may do next, and what that may leave as the balance. */
  ghost predicate MayMove(phase: Phase, from: Stage, to: Stage, was: int, balance: int)
  {
    match from
    case Running(r) =>
      || (to == (if phase == OneByOne then Done else Releasing) && balance == was)
      || (to == Running(true) && balance >= 0)
      || (to == Running(false) && (balance >= 0 || (!r && balance == was)))
    case Releasing => to == Exiting && balance == was
    case Exiting => to == Done && balance == was
    case Done => false
  }

  lemma MoveKeepsInv(s: Pool, i: nat, t: Stage, balance: int)
    requires Inv(s) && i < |s.stages|
    ensures MayMove(s.phase, s.stages[i], t, s.balance, balance) ==> Inv(Move(s, i, t).(balance := balance))
    ensures s.stages[i] == Running(true) ==> s.balance >= 0
  {
    CountOrder(s.stages);
    StageCounted(s.stages, i);
    MoveCounts(s, i, t);
  }

  lemma StageCounted(stages: seq<Stage>, i: nat)
    requires i < |stages|
    ensures Count(stages, InCall) >= InCall(stages[i]) && Count(stages, InSlot) >= InSlot(stages[i])
    ensures Count(stages, Open) >= Open(stages[i]) && Count(stages, Holding) >= Holding(stages[i])
    ensures Count(stages, Open) - Count(stages, InCall) >= Open(stages[i]) - InCall(stages[i])
  {
    CountOrder(stages[1..]);
    if i > 0 {
      StageCounted(stages[1..], i - 1);
    }
  }

  lemma {:induction false} AfterKeepsInv(s: Pool, events: seq<Event>)
    requires Inv(s)
    ensures Inv(After(s, events)) && After(s, events).concurrency == s.concurrency && After(s, events).items == s.items
    decreases |events|
  {
    if |events| > 0 {
      NextKeepsInv(s, events[0]);
      AfterKeepsInv(Next(s, events[0]), events[1..]);
    }
  }

  /**
   In every reachable state, whatever the interleaving: no more than
   `concurrency` items are in their function; no two are unless the balance is
   known; each started item is one of the given ones, in order and once; and the
   pool returns only when all it started has finished, which is everything
   unless cancelled.
   */
  lemma PoolIsBounded(items: nat, concurrency: nat, floor: nat, balance: int, events: seq<Event>)
    requires concurrency >= 1
    ensures var s := After(Initial(items, concurrency, floor, balance), events);
      && Count(s.stages, InCall) <= concurrency
      && (Count(s.stages, InCall) >= 2 ==> s.balance >= 0)
      && |s.stages| <= items
      && (s.phase == Returned ==> (forall i :: 0 <= i < |s.stages| ==> s.stages[i] == Done) && (!s.cancelled ==> |s.stages| == items))
  {
    AfterKeepsInv(Initial(items, concurrency, floor, balance), events);
    CountOrder(After(Initial(items, concurrency, floor, balance), events).stages);
  }

  /** A step never undoes a start, never moves an item backwards, and starts the items in order. */
  lemma {:induction false} ItemsOnlyMoveOn(s: Pool, events: seq<Event>, i: nat)
    requires i < |s.stages|
    ensures i < |After(s, events).stages| && Rank(After(s, events).stages[i]) >= Rank(s.stages[i])
    decreases |events|
  {
    if |events| > 0 {
      ItemsOnlyMoveOn(Next(s, events[0]), events[1..], i);
    }
  }

  function Rank(t: Stage): nat
  {
    match t
    case Running(_) => 0
    case Releasing => 1
    case Exiting => 2
    case Done => 3
  }

  /** Once known, the balance stays known: a reservation leaves the floor, a release adds, a header is not negative. */
  lemma {:induction false} BalanceStaysKnown(s: Pool, events: seq<Event>)
    requires s.balance >= 0
    ensures After(s, events).balance >= 0
    decreases |events|
  {
    if |events| > 0 {
      BalanceStaysKnown(Next(s, events[0]), events[1..]);
    }
  }

  // ---- The pool gets on ----

  /** What is still to do on an item; four more for one not started. */
  function Left(t: Stage): nat
  {
    match t
    case Running(_) => 3
    case Releasing => 2
    case Exiting => 1
    case Done => 0
  }

  function PhaseLeft(p: Phase): nat
  {
    match p
    case OneByOne => 3
    case Dispatching => 2
    case Waiting => 1
    case Returned => 0
  }

  function ToDo(s: Pool): nat
    requires |s.stages| <= s.items
  {
    4 * (s.items - |s.stages|) + Count(s.stages, Left) + PhaseLeft(s.phase)
  }

  /** The next step of an item that is not done. */
  function ItemStep(s: Pool, i: nat): Event
    requires i < |s.stages|
  {
    if s.stages[i].Running? then FnReturns(i) else if s.stages[i].Releasing? then GiveBackSlot(i) else SignOff(i)
  }

  lemma ItemStepHelps(s: Pool, i: nat)
    requires |s.stages| <= s.items && i < |s.stages| && s.stages[i] != Done
    ensures var t := Next(s, ItemStep(s, i)); |t.stages| == |s.stages| && t == s.(stages := t.stages) && ToDo(t) < ToDo(s)
  {
    var t := Next(s, ItemStep(s, i));
    CountUpdate(s.stages, i, t.stages[i], Left);
    assert s.stages[i := t.stages[i]] == t.stages;
  }

  lemma AdvanceHelps(s: Pool)
    requires Inv(s) && s.phase != Returned && forall i :: 0 <= i < |s.stages| ==> s.stages[i] == Done
    ensures var t := Next(s, Advance);
      |t.stages| <= s.items && t.items == s.items && t.cancelled == s.cancelled && ToDo(t) < ToDo(s)
  {
    AllDone(s.stages);
    CountAppend(s.stages, Running(false), Left);
  }

  /** Some step is always open to a pool that has not returned, and takes it nearer to returning. */
  lemma SomeStep(s: Pool) returns (e: Event)
    requires Inv(s) && s.phase != Returned
    ensures Inv(Next(s, e)) && Next(s, e).items == s.items && Next(s, e).cancelled == s.cancelled
    ensures ToDo(Next(s, e)) < ToDo(s)
  {
    if i: nat :| i < |s.stages| && s.stages[i] != Done {
      e := ItemStep(s, i);
      ItemStepHelps(s, i);
    } else {
      e := Advance;
      AdvanceHelps(s);
    }
    NextKeepsInv(s, e);
  }

  lemma AllDone(stages: seq<Stage>)
    requires forall i :: 0 <= i < |stages| ==> stages[i] == Done
    ensures Count(stages, InCall) == 0 && Count(stages, InSlot) == 0 && Count(stages, Open) == 0
  {
  }

  lemma {:induction false} CanReturn(s: Pool) returns (events: seq<Event>)
    requires Inv(s)
    ensures var t := After(s, events);
      t.phase == Returned && Inv(t) && t.items == s.items && t.cancelled == s.cancelled
    decreases ToDo(s)
  {
    if s.phase == Returned {
      events := [];
    } else {
      var e := SomeStep(s);
      var rest := CanReturn(Next(s, e));
      events := [e] + rest;
      assert events[1..] == rest;
    }
  }

  /**
   The pool never gets stuck: every run can be continued to the pool's return,
   with all it started finished, and that is everything if it was not cancelled.
   */
  lemma PoolCanReturn(items: nat, concurrency: nat, floor: nat, balance: int, events: seq<Event>)
    requires concurrency >= 1
    ensures exists more ::
      var t := After(After(Initial(items, concurrency, floor, balance), events), more);
      && t.phase == Returned && (forall i :: 0 <= i < |t.stages| ==> t.stages[i] == Done)
      && (!t.cancelled ==> |t.stages| == items)
  {
    var s := After(Initial(items, concurrency, floor, balance), events);
    AfterKeepsInv(Initial(items, concurrency, floor, balance), events);
    var more := CanReturn(s);
    CountOrder(After(s, more).stages);
  }

  function Times(n: nat, e: Event): seq<Event>
  {
    seq(n, _ => e)
  }

  /** While slots are free the pool's own steps start the next items, in order. */
  lemma {:induction false} StartsNext(s: Pool, n: nat)
    requires s.phase == Dispatching && |s.stages| + n <= s.items && Count(s.stages, InSlot) + n <= s.concurrency
    ensures var t := After(s, Times(n, Advance));
      t.phase == Dispatching && t.stages == s.stages + seq(n, _ => Running(false)) && Count(t.stages, InCall) == Count(s.stages, InCall) + n
    decreases n
  {
    if n == 0 {
      assert s.stages + seq(0, _ => Running(false)) == s.stages;
    } else {
      StartCounts(s);
      assert Next(s, Advance) == Start(s);
      StartsNext(Start(s), n - 1);
      assert Times(n, Advance)[1..] == Times(n - 1, Advance);
      assert Start(s).stages + seq(n - 1, _ => Running(false)) == s.stages + seq(n, _ => Running(false));
    }
  }

  /** The bound is met: with the balance known, as many items as there are slots get to be in their function at once. */
  lemma ConcurrencyIsReached(items: nat, concurrency: nat, floor: nat, balance: nat)
    requires concurrency <= items
    ensures Count(After(Initial(items, concurrency, floor, balance), Times(concurrency + 1, Advance)).stages, InCall) == concurrency
  {
    var s := Initial(items, concurrency, floor, balance);
    var d := s.(phase := Dispatching);
    assert Next(s, Advance) == d;
    StartsNext(d, concurrency);
    assert Times(concurrency + 1, Advance)[1..] == Times(concurrency, Advance);
  }

  /** A pool that has returned starts nothing and finishes nothing more. */
  lemma {:induction false} ReturnedIsFinal(s: Pool, events: seq<Event>)
    requires Inv(s) && s.phase == Returned
    ensures After(s, events).stages == s.stages && After(s, events).phase == Returned
    decreases |events|
  {
    if |events| > 0 {
      CountOrder(s.stages);
      NextKeepsInv(s, events[0]);
      ReturnedStays(s, events[0]);
      ReturnedIsFinal(Next(s, events[0]), events[1..]);
    }
  }

  lemma ReturnedStays(s: Pool, e: Event)
    requires s.phase == Returned && forall i :: 0 <= i < |s.stages| ==> s.stages[i] == Done
    ensures Next(s, e).stages == s.stages && Next(s, e).phase == Returned
  {
  }
}
