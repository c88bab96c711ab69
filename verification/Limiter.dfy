/** internal/limiter: the counting semaphore as a monitor.

    `Semaphore` holds the guarded fields; each of its methods is the code run
    between taking the mutex and giving it up. `Sys` interleaves any number of
    callers: AcquireN is entered, tested, possibly parked on the condition
    variable and tested again; ReleaseN gives permits back in one step and
    broadcasts in a later one; a cancellation may broadcast at any time.
 */
module Limiter {
  import opened Counting

  /** The fields guarded by the mutex. */
  datatype Sem = Sem(capacity: nat, inFlight: nat, totalAcquired: nat, totalWaited: nat)

  predicate Fits(s: Sem, n: nat) {
    s.inFlight + n <= s.capacity
  }

  function Take(s: Sem, n: nat, waited: bool): Sem {
    s.(inFlight := s.inFlight + n,
       totalAcquired := s.totalAcquired + n,
       totalWaited := s.totalWaited + if waited then 1 else 0)
  }

  function Give(s: Sem, n: nat): Sem
    requires n <= s.inFlight
  {
    s.(inFlight := s.inFlight - n)
  }

  /** What AcquireN decides before it touches the mutex. */
  datatype Entry = Nothing | TooMany | Cancelled | Proceed

  function Guard(capacity: nat, n: int, cancelled: bool): Entry {
    if n <= 0 then Nothing
    else if n > capacity then TooMany
    else if cancelled then Cancelled
    else Proceed
  }

  /** One pass over the head of AcquireN's wait loop. */
  datatype Pass = Acquired | GaveUp | MustWait

  class Semaphore {
    const capacity: nat
    var inFlight: nat
    var totalAcquired: nat
    var totalWaited: nat

    ghost predicate Valid()
      reads this
    {
      1 <= capacity && inFlight <= capacity
    }

    ghost function View(): Sem
      reads this
    {
      Sem(capacity, inFlight, totalAcquired, totalWaited)
    }

    constructor (capacity: nat)
      requires 1 <= capacity
      ensures Valid() && View() == Sem(capacity, 0, 0, 0)
    {
      this.capacity := capacity;
      inFlight, totalAcquired, totalWaited := 0, 0, 0;
    }

    /** The critical section of AcquireN from one wake-up to the next. */
    method AcquirePass(n: nat, cancelled: bool, waited: bool) returns (p: Pass)
      requires Valid()
      modifies this
      ensures Valid()
      ensures p.Acquired? <==> old(inFlight) + n <= capacity
      ensures p.GaveUp? <==> old(inFlight) + n > capacity && cancelled
      ensures p.Acquired? ==>
                && inFlight == old(inFlight) + n && totalAcquired == old(totalAcquired) + n
                && totalWaited == old(totalWaited) + if waited then 1 else 0
      ensures View() == if p.Acquired? then Take(old(View()), n, waited) else old(View())
    {
      if inFlight + n > capacity {
        if cancelled { return GaveUp; }
        return MustWait;
      }
      inFlight := inFlight + n;
      totalAcquired := totalAcquired + n;
      if waited {
        totalWaited := totalWaited + 1;
      }
      return Acquired;
    }

    method TryAcquireN(n: int) returns (ok: bool)
      requires Valid()
      modifies this
      ensures Valid()
      ensures ok <==> n <= 0 || old(inFlight) + n <= capacity
      ensures ok && 0 < n ==>
                && inFlight == old(inFlight) + n && totalAcquired == old(totalAcquired) + n
                && totalWaited == old(totalWaited)
      ensures View() == if ok && n > 0 then Take(old(View()), n, false) else old(View())
    {
      if n <= 0 { return true; }
      if inFlight + n > capacity { return false; }
      inFlight := inFlight + n;
      totalAcquired := totalAcquired + n;
      return true;
    }

    /** Returning more than is outstanding panics and leaves the count alone. */
    method ReleaseN(n: int) returns (panicked: bool)
      requires Valid()
      modifies this
      ensures Valid()
      ensures panicked <==> n > old(inFlight)
      ensures inFlight == old(inFlight) - if 0 < n <= old(inFlight) then n else 0
      ensures View() == if 0 < n && !panicked then Give(old(View()), n) else old(View())
    {
      if n <= 0 { return false; }
      if inFlight < n { return true; }
      inFlight := inFlight - n;
      return false;
    }
  }

  // ---------------------------------------------------------------------
  // Any number of callers
  // ---------------------------------------------------------------------

  datatype Caller =
    | Ready(n: nat, waited: bool)   // past the guards, about to test the loop condition
    | Parked(n: nat)                // inside cond.Wait
    | Holding(n: nat, waited: bool) // has permits outstanding
    | Gone(waited: bool)            // returned empty-handed, or gave everything back

  /** `unlocked` counts ReleaseN calls between their unlock and their broadcast;
      `returned` is the number of permits given back so far. */
  datatype Sys = Sys(sem: Sem, callers: seq<Caller>, unlocked: nat, returned: nat)

  datatype Event =
    | CallAcquire(want: int, cancelled: bool)
    | CallTry(want: int)
    | Test(who: nat, cancelled: bool)
    | Release(who: nat, give: nat)
    | Broadcast
    | CancelBroadcast

  function Held(c: Caller): nat {
    if c.Holding? then c.n else 0
  }

  /** An acquire that succeeded after having been parked. */
  function Waited(c: Caller): nat {
    if (c.Holding? || c.Gone?) && c.waited then 1 else 0
  }

  function Init(capacity: nat): Sys {
    Sys(Sem(capacity, 0, 0, 0), [], 0, 0)
  }

  function Wake(c: Caller): Caller {
    if c.Parked? then Ready(c.n, true) else c
  }

  function WakeAll(callers: seq<Caller>): (woken: seq<Caller>)
    ensures |woken| == |callers|
    ensures forall i :: 0 <= i < |callers| ==> woken[i] == Wake(callers[i])
  {
    if callers == [] then []
    else WakeAll(callers[..|callers| - 1]) + [Wake(callers[|callers| - 1])]
  }

  /** An event that is not enabled leaves the system as it is. */
  function Step(s: Sys, e: Event): Sys {
    match e
    case CallAcquire(n, cancelled) =>
      if Guard(s.sem.capacity, n, cancelled).Proceed?
      then s.(callers := s.callers + [Ready(n, false)])
      else s.(callers := s.callers + [Gone(false)])
    case CallTry(n) =>
      if 0 < n && Fits(s.sem, n)
      then s.(sem := Take(s.sem, n, false), callers := s.callers + [Holding(n, false)])
      else s.(callers := s.callers + [Gone(false)])
    case Test(i, cancelled) =>
      if i < |s.callers| && s.callers[i].Ready? then
        var n := s.callers[i].n;
        if Fits(s.sem, n) then
          s.(sem := Take(s.sem, n, s.callers[i].waited), callers := s.callers[i := Holding(n, s.callers[i].waited)])
        else if cancelled then s.(callers := s.callers[i := Gone(false)])
        else s.(callers := s.callers[i := Parked(n)])
      else s
    case Release(i, n) =>
      if i < |s.callers| && s.callers[i].Holding? && 0 < n <= s.callers[i].n && n <= s.sem.inFlight then
        var left, waited := s.callers[i].n - n, s.callers[i].waited;
        s.(sem := Give(s.sem, n),
           callers := s.callers[i := if left == 0 then Gone(waited) else Holding(left, waited)],
           unlocked := s.unlocked + 1,
           returned := s.returned + n)
      else s
    case Broadcast =>
      if 0 < s.unlocked then s.(callers := WakeAll(s.callers), unlocked := s.unlocked - 1) else s
    case CancelBroadcast =>
      s.(callers := WakeAll(s.callers))
  }

  function Exec(s: Sys, events: seq<Event>): Sys {
    if events == [] then s
    else Step(Exec(s, events[..|events| - 1]), events[|events| - 1])
  }

  /** A parked request that the free permits cover is owed a broadcast. */
  ghost predicate NoLostWakeup(s: Sys) {
    forall i :: 0 <= i < |s.callers| && s.callers[i].Parked? && s.sem.inFlight + s.callers[i].n <= s.sem.capacity ==>
      0 < s.unlocked
  }

  ghost predicate Inv(s: Sys) {
    && 1 <= s.sem.capacity
    && s.sem.inFlight <= s.sem.capacity
    && s.sem.inFlight == Total(s.callers, Held)
    && s.sem.totalAcquired == s.sem.inFlight + s.returned
    && s.sem.totalWaited == Total(s.callers, Waited)
    && (forall i :: 0 <= i < |s.callers| && (s.callers[i].Ready? || s.callers[i].Parked?)
                    ==> 1 <= s.callers[i].n <= s.sem.capacity)
    && NoLostWakeup(s)
  }

  lemma {:induction false} WakeKeepsHeld(callers: seq<Caller>)
    ensures Total(WakeAll(callers), Held) == Total(callers, Held)
    ensures Total(WakeAll(callers), Waited) == Total(callers, Waited)
  {
    if callers != [] {
      var front := callers[..|callers| - 1];
      WakeKeepsHeld(front);
      Append(WakeAll(front), Wake(callers[|callers| - 1]), Held);
      Append(WakeAll(front), Wake(callers[|callers| - 1]), Waited);
    }
  }

  lemma Joins(cs: seq<Caller>, c: Caller)
    ensures Total(cs + [c], Held) == Total(cs, Held) + Held(c)
    ensures Total(cs + [c], Waited) == Total(cs, Waited) + Waited(c)
  {
    Append(cs, c, Held);
    Append(cs, c, Waited);
  }

  lemma Becomes(cs: seq<Caller>, i: nat, c: Caller)
    requires i < |cs|
    ensures Total(cs[i := c], Held) + Held(cs[i]) == Total(cs, Held) + Held(c)
    ensures Total(cs[i := c], Waited) + Waited(cs[i]) == Total(cs, Waited) + Waited(c)
  {
    Update(cs, i, c, Held);
    Update(cs, i, c, Waited);
  }

  lemma ArrivalKeepsInv(s: Sys, c: Caller)
    requires Inv(s) && (c == Gone(false) || (c.Ready? && !c.waited && 1 <= c.n <= s.sem.capacity))
    ensures Inv(s.(callers := s.callers + [c]))
  {
    Joins(s.callers, c);
  }

  lemma TryKeepsInv(s: Sys, n: nat)
    requires Inv(s) && 0 < n && Fits(s.sem, n)
    ensures Inv(s.(sem := Take(s.sem, n, false), callers := s.callers + [Holding(n, false)]))
  {
    var c := Holding(n, false);
    Joins(s.callers, c);
    var t := s.(sem := Take(s.sem, n, false), callers := s.callers + [c]);
    assert NoLostWakeup(t) by {
      forall i | 0 <= i < |t.callers| && t.callers[i].Parked? && t.sem.inFlight + t.callers[i].n <= t.sem.capacity
        ensures 0 < t.unlocked
      {
        assert t.callers[i] == s.callers[i];
      }
    }
  }

  lemma TestKeepsInv(s: Sys, e: Event)
    requires Inv(s) && e.Test? && e.who < |s.callers| && s.callers[e.who].Ready?
    ensures Inv(Step(s, e))
  {
    Becomes(s.callers, e.who, Step(s, e).callers[e.who]);
  }

  lemma ReleaseKeepsInv(s: Sys, e: Event)
    requires Inv(s) && e.Release? && e.who < |s.callers| && s.callers[e.who].Holding?
    requires 0 < e.give <= s.callers[e.who].n
    ensures Inv(Step(s, e))
  {
    AtLeast(s.callers, e.who, Held);
    Becomes(s.callers, e.who, Step(s, e).callers[e.who]);
  }

  lemma StepKeepsInv(s: Sys, e: Event)
    requires Inv(s)
    ensures Inv(Step(s, e))
  {
    match e
    case CallAcquire(n, cancelled) =>
      ArrivalKeepsInv(s, if Guard(s.sem.capacity, n, cancelled).Proceed? then Ready(n, false) else Gone(false));
    case CallTry(n) =>
      if 0 < n && Fits(s.sem, n) { TryKeepsInv(s, n); } else { ArrivalKeepsInv(s, Gone(false)); }
    case Test(i, _) => if i < |s.callers| && s.callers[i].Ready? { TestKeepsInv(s, e); }
    case Release(i, k) =>
      if i < |s.callers| && s.callers[i].Holding? && 0 < k <= s.callers[i].n { ReleaseKeepsInv(s, e); }
    case Broadcast => WakeKeepsHeld(s.callers);
    case CancelBroadcast => WakeKeepsHeld(s.callers);
  }

  lemma {:induction false} Reachable(capacity: nat, events: seq<Event>)
    requires 1 <= capacity
    ensures Inv(Exec(Init(capacity), events))
    ensures Exec(Init(capacity), events).sem.capacity == capacity
  {
    if events != [] {
      Reachable(capacity, events[..|events| - 1]);
      StepKeepsInv(Exec(Init(capacity), events[..|events| - 1]), events[|events| - 1]);
    }
  }

  /** In every reachable state the permits outstanding are exactly `inFlight`,
      never above capacity; a caller can always give back what it holds, so
      the over-release panic needs a caller that returns more than its own. */
  lemma PermitsAreConserved(capacity: nat, events: seq<Event>, who: nat)
    requires 1 <= capacity
    ensures var s := Exec(Init(capacity), events);
            && s.sem.inFlight == Total(s.callers, Held) <= capacity
            && s.sem.totalAcquired == s.sem.inFlight + s.returned
            && s.sem.totalWaited == Total(s.callers, Waited)
            && (who < |s.callers| ==> Held(s.callers[who]) <= s.sem.inFlight)
  {
    Reachable(capacity, events);
    var s := Exec(Init(capacity), events);
    if who < |s.callers| {
      AtLeast(s.callers, who, Held);
    }
  }

  /** No wake-up is lost: with no broadcast pending every parked request is for more
      than the permits others hold leave, and some caller holds permits to give back. */
  lemma NoWakeupIsLost(capacity: nat, events: seq<Event>, who: nat) returns (holder: nat)
    requires 1 <= capacity
    requires var s := Exec(Init(capacity), events);
             who < |s.callers| && s.callers[who].Parked? && s.unlocked == 0
    ensures var s := Exec(Init(capacity), events);
            && Total(s.callers, Held) + s.callers[who].n > capacity
            && holder < |s.callers| && 0 < Held(s.callers[holder])
  {
    Reachable(capacity, events);
    var s := Exec(Init(capacity), events);
    holder := Witness(s.callers, Held);
  }

  /** Who comes in: a caller goes on to the wait loop exactly when it asks for some
      permits, no more than there are, with its context alive. */
  lemma EntryIff(capacity: nat, events: seq<Event>, n: int, cancelled: bool)
    requires 1 <= capacity
    ensures var s := Exec(Init(capacity), events);
            var t := Step(s, CallAcquire(n, cancelled));
            && t.sem == s.sem && |t.callers| == |s.callers| + 1
            && t.callers[|s.callers|] == if 1 <= n <= capacity && !cancelled then Ready(n, false) else Gone(false)
    ensures Guard(capacity, n, cancelled).Nothing? <==> n <= 0
    ensures Guard(capacity, n, cancelled).TooMany? <==> capacity < n
    ensures Guard(capacity, n, cancelled).Cancelled? <==> 1 <= n <= capacity && cancelled
  {
    Reachable(capacity, events);
  }

  /** Who is let through, in any run: exactly those asking for no more than the
      permits that all the callers leave. Nobody else is turned away or parked. */
  lemma AdmittedIff(capacity: nat, events: seq<Event>, who: nat, cancelled: bool, n: nat)
    requires 1 <= capacity
    ensures var s := Exec(Init(capacity), events);
            who < |s.callers| && s.callers[who].Ready? ==>
              var asked := s.callers[who].n;
              Step(s, Test(who, cancelled)).callers == s.callers[who :=
                if Total(s.callers, Held) + asked <= capacity then Holding(asked, s.callers[who].waited)
                else if cancelled then Gone(false)
                else Parked(asked)]
    ensures var s := Exec(Init(capacity), events);
            Step(s, CallTry(n)).callers == s.callers +
              [if 1 <= n && Total(s.callers, Held) + n <= capacity then Holding(n, false) else Gone(false)]
  {
    Reachable(capacity, events);
  }

  /** A parked caller whose context ends is woken, and returns with its permits if
      they are free by then and empty-handed otherwise. */
  lemma CancelledCallerReturns(capacity: nat, events: seq<Event>, who: nat)
    requires 1 <= capacity
    requires var s := Exec(Init(capacity), events);
             who < |s.callers| && s.callers[who].Parked?
    ensures var s := Exec(Init(capacity), events);
            var t := Step(Step(s, CancelBroadcast), Test(who, true));
            && |t.callers| == |s.callers|
            && t.callers[who] == if Total(s.callers, Held) + s.callers[who].n <= capacity
                                 then Holding(s.callers[who].n, true) else Gone(false)
  {
    Reachable(capacity, events);
  }

  /** Permits given back reach a parked caller: after the release and its broadcast the
      caller goes through exactly when what the others then hold leaves enough. */
  lemma ReleaseReachesWaiter(capacity: nat, events: seq<Event>, holder: nat, give: nat, who: nat)
    requires 1 <= capacity
    requires var s := Exec(Init(capacity), events);
             && holder < |s.callers| && s.callers[holder].Holding? && 0 < give <= s.callers[holder].n
             && who < |s.callers| && s.callers[who].Parked?
    ensures var s := Exec(Init(capacity), events);
            var asked := s.callers[who].n;
            var released := Step(s, Release(holder, give));
            var t := Step(Step(released, Broadcast), Test(who, false));
            && released.sem.inFlight == s.sem.inFlight - give && released.sem.capacity == s.sem.capacity
            && released.callers[holder] == (if give == s.callers[holder].n then Gone(s.callers[holder].waited)
                                            else Holding(s.callers[holder].n - give, s.callers[holder].waited))
            && |t.callers| == |s.callers|
            && t.callers[who] == if Total(s.callers, Held) - give + asked <= capacity then Holding(asked, true)
                                 else Parked(asked)
  {
    Reachable(capacity, events);
    ReleaseWakes(Exec(Init(capacity), events), holder, give, who);
  }

  lemma ReleaseWakes(s: Sys, holder: nat, give: nat, who: nat)
    requires Inv(s) && holder < |s.callers| && s.callers[holder].Holding? && 0 < give <= s.callers[holder].n
    requires who < |s.callers| && s.callers[who].Parked?
    ensures give <= s.sem.inFlight && Step(s, Release(holder, give)).sem == Give(s.sem, give)
    ensures var woken := Step(Step(s, Release(holder, give)), Broadcast);
            woken.sem == Give(s.sem, give) && |woken.callers| == |s.callers|
            && woken.callers[who] == Ready(s.callers[who].n, true)
  {
    AtLeast(s.callers, holder, Held);
  }

  /** `k` callers that each acquire one permit, one after the other. */
  function Singles(k: nat): seq<Event> {
    if k == 0 then [] else Singles(k - 1) + [CallAcquire(1, false), Test(k - 1, false)]
  }

  lemma {:induction false} TwoMore(s: Sys, events: seq<Event>, d: Event, e: Event)
    ensures Exec(s, events + [d, e]) == Step(Step(Exec(s, events), d), e)
  {
    Unroll(s, events, d);
    Unroll(s, events + [d], e);
    assert events + [d, e] == events + [d] + [e];
  }

  lemma Unroll(s: Sys, events: seq<Event>, e: Event)
    ensures Exec(s, events + [e]) == Step(Exec(s, events), e)
  {
    assert (events + [e])[..|events|] == events;
  }

  /** After `k` single acquires: one permit each to as many as there are, the others parked. */
  ghost predicate Served(s: Sys, capacity: nat, k: nat) {
    && s.sem.capacity == capacity && s.sem.inFlight == (if k <= capacity then k else capacity)
    && |s.callers| == k
    && forall i :: 0 <= i < k ==> s.callers[i] == if i < capacity then Holding(1, false) else Parked(1)
  }

  lemma NextIsServed(s: Sys, capacity: nat, k: nat)
    requires 1 <= capacity && Served(s, capacity, k)
    ensures Served(Step(Step(s, CallAcquire(1, false)), Test(k, false)), capacity, k + 1)
  {
  }

  /** As many single acquires as there are permits all go through at once, and every
      further one parks. */
  lemma {:induction false} EveryPermitIsUsable(capacity: nat, k: nat)
    requires 1 <= capacity
    ensures Served(Exec(Init(capacity), Singles(k)), capacity, k)
  {
    if k != 0 {
      EveryPermitIsUsable(capacity, k - 1);
      TwoMore(Init(capacity), Singles(k - 1), CallAcquire(1, false), Test(k - 1, false));
      NextIsServed(Exec(Init(capacity), Singles(k - 1)), capacity, k - 1);
    }
  }
}
