/** internal/eventbus: the synchronous and the asynchronous bus.

    `Sys` is the asynchronous bus with any number of subscribers, publishers and
    unsubscribers and one Close. Publish checks the closed flag, takes its
    snapshot of subscribers under the mutex and then sends to one of them per
    step; each subscriber's goroutine receives, handles, notices its stop signal
    and drains. Handlers are uninterpreted.
 */
module EventBus {
  import opened Options
  import opened Counting

  // ---------------------------------------------------------------------
  // Sync
  // ---------------------------------------------------------------------

  ghost predicate Ascending(s: seq<nat>) {
    forall p, q :: 0 <= p < q < |s| ==> s[p] <= s[q]
  }

  /** The first `i + 1` are in order but for the one at `j`, still sinking. */
  ghost predicate AscendingBut(s: seq<nat>, i: nat, j: nat)
    requires i < |s|
  {
    forall p, q :: 0 <= p < q <= i && q != j ==> s[p] <= s[q]
  }

  function Sunk(s: seq<nat>, j: nat): seq<nat>
    requires 0 < j < |s|
  {
    s[j := s[j - 1]][j - 1 := s[j]]
  }

  lemma SinkPermutes(s: seq<nat>, j: nat)
    requires 0 < j < |s|
    ensures multiset(Sunk(s, j)) == multiset(s)
  {
  }

  lemma SinkOrders(s: seq<nat>, i: nat, j: nat)
    requires 0 < j <= i < |s| && AscendingBut(s, i, j) && s[j - 1] > s[j]
    ensures AscendingBut(Sunk(s, j), i, j - 1)
  {
  }

  /** The insertion sort on subscription ids. */
  method SortIDs(ids: array<nat>)
    modifies ids
    ensures Ascending(ids[..])
    ensures multiset(ids[..]) == multiset(old(ids[..]))
  {
    var i := 1;
    while i < ids.Length
      invariant 1 <= i
      invariant forall p, q :: 0 <= p < q < i && q < ids.Length ==> ids[p] <= ids[q]
      invariant multiset(ids[..]) == multiset(old(ids[..]))
    {
      var j := i;
      while j > 0 && ids[j - 1] > ids[j]
        invariant 0 <= j <= i
        invariant AscendingBut(ids[..], i, j)
        invariant multiset(ids[..]) == multiset(old(ids[..]))
      {
        ghost var before := ids[..];
        SinkPermutes(before, j);
        SinkOrders(before, i, j);
        ids[j], ids[j - 1] := ids[j - 1], ids[j];
        assert ids[..] == Sunk(before, j);
        j := j - 1;
      }
      assert forall p, q :: 0 <= p < q <= i ==> ids[..][p] <= ids[..][q];
      i := i + 1;
    }
  }

  /** The order handlers are called in: each id once, oldest subscription first. */
  ghost predicate InSubscriptionOrder(ids: seq<nat>, who: set<nat>) {
    && (forall p, q :: 0 <= p < q < |ids| ==> ids[p] < ids[q])
    && (forall id :: id in ids <==> id in who)
  }

  class Sync<H> {
    var nextID: nat
    var handlers: map<nat, H>

    ghost predicate Valid()
      reads this
    {
      forall id :: id in handlers ==> id < nextID
    }

    constructor ()
      ensures Valid() && handlers == map[]
    {
      nextID, handlers := 0, map[];
    }

    method Subscribe(handler: H) returns (id: nat)
      requires Valid()
      modifies this
      ensures Valid() && id !in old(handlers) && handlers == old(handlers)[id := handler]
      ensures forall other :: other in old(handlers) ==> other < id
    {
      id := nextID;
      nextID := nextID + 1;
      handlers := handlers[id := handler];
    }

    method Unsubscribe(id: nat)
      requires Valid()
      modifies this
      ensures Valid() && handlers == old(handlers) - {id}
    {
      handlers := handlers - {id};
    }

    /** The ids are collected under one read lock and looked up under a second;
        `later` is what the table holds by then. */
    method Publish(later: map<nat, H>) returns (called: seq<nat>)
      ensures InSubscriptionOrder(called, handlers.Keys * later.Keys)
    {
      var rest := handlers.Keys;
      var ids: seq<nat> := [];
      while rest != {}
        invariant rest <= handlers.Keys
        invariant forall id :: id in ids <==> id in handlers && id !in rest
        invariant forall p, q :: 0 <= p < q < |ids| ==> ids[p] != ids[q]
        decreases |rest|
      {
        var id :| id in rest;
        ids := ids + [id];
        rest := rest - {id};
      }
      var sorted := new nat[|ids|](i requires 0 <= i < |ids| => ids[i]);
      assert sorted[..] == ids;
      SortIDs(sorted);
      Rearranged(ids, sorted[..]);
      called := [];
      for k := 0 to sorted.Length
        invariant forall id :: id in called <==> id in sorted[..k] && id in later
        invariant forall p, q :: 0 <= p < q < |called| ==> called[p] < called[q]
      {
        assert sorted[..k + 1] == sorted[..k] + [sorted[k]];
        assert forall p :: 0 <= p < k ==> sorted[..][p] < sorted[..][k];
        forall r | 0 <= r < |called| ensures called[r] < sorted[k] {
          assert called[r] in called;
          var p :| 0 <= p < k && sorted[..k][p] == called[r];
        }
        if sorted[k] in later {
          called := called + [sorted[k]];
        }
      }
      assert sorted[..sorted.Length] == sorted[..];
    }
  }

  // ---------------------------------------------------------------------
  // Async
  // ---------------------------------------------------------------------

  /** The subscriber's goroutine: not yet counted, not yet started, in its
      select, draining after the stop signal, gone. */
  datatype Loop = Unborn | Counted | Live | Draining | Exited

  /** One subscription. `accepted` is every event its channel took, `handled`
      every event its handler has finished with, `attempts` the sends tried under
      DropWhenFull; `clean` says nobody was about to send when stop was signalled. */
  datatype Sub<E> = Sub(
    listed: bool, stopped: bool, loop: Loop,
    queue: seq<E>, inHand: Option<E>,
    accepted: seq<E>, handled: seq<E>, attempts: nat, dropped: nat, clean: bool)

  /** `sent` are the subscribers a Publish has been through, `rest` those ahead of it. */
  datatype Publisher<E> = Checked(event: E) | Sending(event: E, rest: seq<nat>, sent: set<nat>)

  datatype Closing = Open | Flagged | Signalled | Closed

  /** `settled` are the subscriptions stopped by Close whose goroutine had been
      counted and to which no Publish was about to send; `senders` says for each
      subscription whose events it accepted, in order. */
  datatype Sys<E> = Sys(
    buffer: nat, dropWhenFull: bool,
    subs: seq<Sub<E>>, publishers: seq<Publisher<E>>, dropped: nat, wg: nat,
    closing: Closing, settled: set<nat>, senders: seq<seq<nat>>)

  datatype Event<E> =
    | Subscribe
    | CountIn(sub: nat)
    | Start(sub: nat)
    | Unsubscribe(sub: nat)
    | BeginPublish(event: E)
    | Snapshot(who: nat, order: seq<nat>)
    | Deliver(who: nat, giveUp: bool)
    | Receive(sub: nat)
    | Handle(sub: nat)
    | SeeStop(sub: nat)
    | Leave(sub: nat)
    | SetClosed
    | SignalAll
    | CloseReturns

  function Init<E>(bufferSize: int, dropWhenFull: bool): Sys<E> {
    Sys(if bufferSize <= 0 then 16 else bufferSize, dropWhenFull, [], [], 0, 0, Open, {}, [])
  }

  function NewSub<E>(): Sub<E> {
    Sub(true, false, Unborn, [], None, [], [], 0, 0, false)
  }

  function Accept<E>(b: Sub<E>, e: E): Sub<E> {
    b.(queue := b.queue + [e], accepted := b.accepted + [e])
  }

  /** A send under DropWhenFull. */
  function Offer<E>(b: Sub<E>, e: E, buffer: nat): Sub<E> {
    var tried := b.(attempts := b.attempts + 1);
    if |b.queue| < buffer then Accept(tried, e) else tried.(dropped := b.dropped + 1)
  }

  function TakeNext<E>(b: Sub<E>): Sub<E>
    requires b.queue != []
  {
    b.(inHand := Some(b.queue[0]), queue := b.queue[1..])
  }

  function PutAway<E>(b: Sub<E>): Sub<E>
    requires b.inHand.Some?
  {
    b.(handled := b.handled + [b.inHand.value], inHand := None)
  }

  ghost predicate Holds<E>(p: Publisher<E>, id: nat) {
    p.Sending? && id in p.rest
  }

  ghost predicate NobodySendsTo<E>(publishers: seq<Publisher<E>>, id: nat) {
    forall i :: 0 <= i < |publishers| ==> !Holds(publishers[i], id)
  }

  ghost function Stop<E>(b: Sub<E>, id: nat, publishers: seq<Publisher<E>>): Sub<E> {
    if b.listed then b.(listed := false, stopped := true, clean := NobodySendsTo(publishers, id)) else b
  }

  ghost function StopAll<E>(subs: seq<Sub<E>>, publishers: seq<Publisher<E>>): (r: seq<Sub<E>>)
    ensures |r| == |subs|
    ensures forall i :: 0 <= i < |subs| ==> r[i] == Stop(subs[i], i, publishers)
  {
    seq(|subs|, i requires 0 <= i < |subs| => Stop(subs[i], i, publishers))
  }

  /** The snapshot visits every listed subscription once, in any order. */
  ghost predicate IsSnapshot<E>(subs: seq<Sub<E>>, order: seq<nat>) {
    && (forall id: nat :: id in order <==> id < |subs| && subs[id].listed)
    && (forall p, q :: 0 <= p < q < |order| ==> order[p] != order[q])
  }

  ghost function Change<E>(s: Sys<E>, id: nat, b: Sub<E>): Sys<E>
    requires id < |s.subs|
  {
    s.(subs := s.subs[id := b])
  }

  function Credited(senders: seq<seq<nat>>, id: nat, who: nat): seq<seq<nat>> {
    if id < |senders| then senders[id := senders[id] + [who]] else senders
  }

  ghost function DeliverTo<E>(s: Sys<E>, who: nat, giveUp: bool): Sys<E>
    requires who < |s.publishers| && s.publishers[who].Sending? && s.publishers[who].rest != []
    requires s.publishers[who].rest[0] < |s.subs|
  {
    var p := s.publishers[who];
    var id := p.rest[0];
    var b := s.subs[id];
    var next := s.(publishers := s.publishers[who := p.(rest := p.rest[1..], sent := p.sent + {id})]);
    var kept := next.(senders := Credited(s.senders, id, who));
    if s.dropWhenFull then
      if |b.queue| < s.buffer then Change(kept, id, Offer(b, p.event, s.buffer))
      else Change(next, id, Offer(b, p.event, s.buffer)).(dropped := s.dropped + 1)
    else if b.stopped && giveUp then next
    else if |b.queue| < s.buffer then Change(kept, id, Accept(b, p.event))
    else s
  }

  ghost function Step<E>(s: Sys<E>, e: Event<E>): Sys<E> {
    match e
    case Subscribe => s.(subs := s.subs + [NewSub()], senders := s.senders + [[]])
    case CountIn(id) =>
      if id < |s.subs| && s.subs[id].loop.Unborn? then
        Change(s, id, s.subs[id].(loop := Counted)).(wg := s.wg + 1)
      else s
    case Start(id) =>
      if id < |s.subs| && s.subs[id].loop.Counted? then Change(s, id, s.subs[id].(loop := Live)) else s
    case Unsubscribe(id) =>
      if id < |s.subs| && s.subs[id].listed && !s.subs[id].loop.Unborn? then
        Change(s, id, Stop(s.subs[id], id, s.publishers))
      else s
    case BeginPublish(ev) =>
      if s.closing.Open? then s.(publishers := s.publishers + [Checked(ev)]) else s
    case Snapshot(who, order) =>
      if who < |s.publishers| && s.publishers[who].Checked? && IsSnapshot(s.subs, order) then
        s.(publishers := s.publishers[who := Sending(s.publishers[who].event, order, {})])
      else s
    case Deliver(who, giveUp) =>
      if && who < |s.publishers| && s.publishers[who].Sending? && s.publishers[who].rest != []
         && s.publishers[who].rest[0] < |s.subs|
      then DeliverTo(s, who, giveUp)
      else s
    case Receive(id) =>
      if && id < |s.subs| && (s.subs[id].loop.Live? || s.subs[id].loop.Draining?)
         && s.subs[id].inHand.None? && s.subs[id].queue != []
      then Change(s, id, TakeNext(s.subs[id]))
      else s
    case Handle(id) =>
      if id < |s.subs| && s.subs[id].inHand.Some? then
        Change(s, id, PutAway(s.subs[id]))
      else s
    case SeeStop(id) =>
      if id < |s.subs| && s.subs[id].loop.Live? && s.subs[id].inHand.None? && s.subs[id].stopped then
        Change(s, id, s.subs[id].(loop := Draining))
      else s
    case Leave(id) =>
      if && id < |s.subs| && s.subs[id].loop.Draining? && s.subs[id].inHand.None? && s.subs[id].queue == []
         && 0 < s.wg
      then Change(s, id, s.subs[id].(loop := Exited)).(wg := s.wg - 1)
      else s
    case SetClosed => if s.closing.Open? then s.(closing := Flagged) else s
    case SignalAll =>
      if s.closing.Flagged? then
        s.(closing := Signalled, subs := StopAll(s.subs, s.publishers),
           settled := set id | 0 <= id < |s.subs| && s.subs[id].listed && !s.subs[id].loop.Unborn?
                               && NobodySendsTo(s.publishers, id))
      else s
    case CloseReturns => if s.closing.Signalled? && s.wg == 0 then s.(closing := Closed) else s
  }

  ghost function Exec<E>(s: Sys<E>, events: seq<Event<E>>): Sys<E> {
    if events == [] then s
    else Step(Exec(s, events[..|events| - 1]), events[|events| - 1])
  }

  // ---------------------------------------------------------------------
  // What every run keeps
  // ---------------------------------------------------------------------

  function InHand<E>(b: Sub<E>): seq<E> {
    if b.inHand.Some? then [b.inHand.value] else []
  }

  ghost predicate SubOk<E>(b: Sub<E>, buffer: nat, dropWhenFull: bool) {
    && b.accepted == b.handled + InHand(b) + b.queue
    && |b.queue| <= buffer
    && (if dropWhenFull then b.attempts == |b.accepted| + b.dropped else b.dropped == 0)
    && (b.listed ==> !b.stopped) && (b.clean ==> b.stopped)
    && (b.loop.Draining? ==> b.stopped)
    && (b.loop.Exited? ==> b.stopped && b.inHand.None? && (b.clean ==> b.queue == []))
  }

  function Running<E>(b: Sub<E>): nat {
    if b.loop.Counted? || b.loop.Live? || b.loop.Draining? then 1 else 0
  }

  function Drops<E>(b: Sub<E>): nat { b.dropped }

  ghost predicate Quiet<E>(s: Sys<E>) {
    forall id :: 0 <= id < |s.subs| && s.subs[id].clean ==> NobodySendsTo(s.publishers, id)
  }

  ghost predicate Settled<E>(s: Sys<E>) {
    && (s.settled != {} ==> s.closing.Signalled? || s.closing.Closed?)
    && forall id :: id in s.settled ==>
         id < |s.subs| && s.subs[id].clean && !s.subs[id].loop.Unborn?
         && (s.closing.Closed? ==> s.subs[id].loop.Exited?)
  }

  ghost predicate Inv<E>(s: Sys<E>) {
    && (forall id :: 0 <= id < |s.subs| ==> SubOk(s.subs[id], s.buffer, s.dropWhenFull))
    && s.wg == Total(s.subs, Running)
    && s.dropped == Total(s.subs, Drops)
    && Quiet(s) && Settled(s)
  }

  /** All listed subscribers but those in `rest` have been offered the event. */
  ghost predicate Offered<E>(was: seq<Sub<E>>, now: seq<Sub<E>>, rest: set<nat>, e: E, buffer: nat) {
    && |now| == |was|
    && forall id: nat :: id < |was| ==>
         now[id] == if was[id].listed && id !in rest then Offer(was[id], e, buffer) else was[id]
  }

  lemma OfferedNext<E>(was: seq<Sub<E>>, now: seq<Sub<E>>, rest: set<nat>, id: nat, e: E, buffer: nat)
    requires Offered(was, now, rest, e, buffer) && id in rest && id < |was| && was[id].listed
    ensures Offered(was, now[id := Offer(now[id], e, buffer)], rest - {id}, e, buffer)
  {
  }

  /** The bus as an object; each method runs with nobody else in between. */
  class Async<E> {
    const buffer: nat
    var subs: seq<Sub<E>>
    var dropped: nat
    var closed: bool

    constructor (bufferSize: int)
      ensures buffer == (if bufferSize <= 0 then 16 else bufferSize) && subs == [] && dropped == 0 && !closed
    {
      buffer := if bufferSize <= 0 then 16 else bufferSize;
      subs, dropped, closed := [], 0, false;
    }

    method Add() returns (id: Option<nat>)
      modifies this
      ensures closed == old(closed) && dropped == old(dropped)
      ensures id == if old(closed) then None else Some(|old(subs)|)
      ensures subs == if old(closed) then old(subs) else old(subs) + [NewSub()]
      ensures id.Some? ==>
                var b := subs[id.value];
                b.listed && !b.stopped && b.queue == b.accepted == b.handled == [] && b.attempts == b.dropped == 0
    {
      if closed { return None; }
      id := Some(|subs|);
      subs := subs + [NewSub()];
    }

    /** One send with a default branch. */
    method SendOrDrop(id: nat, e: E)
      requires id < |subs|
      modifies this
      ensures closed == old(closed) && subs == old(subs)[id := Offer(old(subs)[id], e, buffer)]
      ensures dropped - old(dropped) == Total(subs, Drops) - Total(old(subs), Drops)
      ensures |subs| == |old(subs)| && forall k :: 0 <= k < |subs| && k != id ==> subs[k] == old(subs)[k]
      ensures subs[id].attempts == old(subs)[id].attempts + 1
      ensures |old(subs)[id].queue| < buffer ==>
                && subs[id].queue == old(subs)[id].queue + [e] && subs[id].accepted == old(subs)[id].accepted + [e]
                && subs[id].dropped == old(subs)[id].dropped && dropped == old(dropped)
      ensures buffer <= |old(subs)[id].queue| ==>
                && subs[id].queue == old(subs)[id].queue && subs[id].accepted == old(subs)[id].accepted
                && subs[id].dropped == old(subs)[id].dropped + 1 && dropped == old(dropped) + 1
    {
      Update(subs, id, Offer(subs[id], e, buffer), Drops);
      var b := subs[id].(attempts := subs[id].attempts + 1);
      if |b.queue| < buffer {
        subs := subs[id := Accept(b, e)];
      } else {
        subs := subs[id := b.(dropped := b.dropped + 1)];
        dropped := dropped + 1;
      }
    }

    /** Publish under DropWhenFull: every listed subscriber is offered the event
        once, whatever the order, and the drops are counted. */
    method Publish(e: E)
      modifies this
      ensures closed == old(closed)
      ensures if closed then subs == old(subs) else Offered(old(subs), subs, {}, e, buffer)
      ensures |subs| == |old(subs)|
      ensures forall id :: 0 <= id < |subs| ==>
                var was, now := old(subs)[id], subs[id];
                if closed || !was.listed then now == was
                else if |was.queue| < buffer
                then now.queue == was.queue + [e] && now.accepted == was.accepted + [e] && now.dropped == was.dropped
                else now.queue == was.queue && now.accepted == was.accepted && now.dropped == was.dropped + 1
      ensures dropped - old(dropped) == Total(subs, Drops) - Total(old(subs), Drops)
    {
      if closed { return; }
      var rest: set<nat> := set id: nat | id < |subs| && subs[id].listed;
      while rest != {}
        invariant closed == old(closed) && Offered(old(subs), subs, rest, e, buffer)
        invariant forall id :: id in rest ==> id < |subs| && old(subs)[id].listed
        invariant dropped - old(dropped) == Total(subs, Drops) - Total(old(subs), Drops)
        decreases |rest|
      {
        var id :| id in rest;
        OfferedNext(old(subs), subs, rest, id, e, buffer);
        SendOrDrop(id, e);
        rest := rest - {id};
      }
    }

    /** The locked part of Close: every listed subscriber is unlisted and told to stop. */
    method SignalStops()
      modifies this
      ensures closed && dropped == old(dropped)
      ensures subs == if old(closed) then old(subs) else StopAll(old(subs), [])
      ensures forall id :: 0 <= id < |subs| && !old(closed) && old(subs)[id].listed ==>
                !subs[id].listed && subs[id].stopped && subs[id].queue == old(subs)[id].queue
    {
      if closed { return; }
      closed := true;
      for id := 0 to |subs|
        invariant |subs| == |old(subs)| && closed && dropped == old(dropped)
        invariant forall k :: 0 <= k < |subs| ==> subs[k] == if k < id then Stop(old(subs)[k], k, []) else old(subs)[k]
      {
        if subs[id].listed {
          subs := subs[id := subs[id].(listed := false, stopped := true, clean := true)];
        }
      }
    }
  }

  /** One subscription changes and the publishers at most shorten their lists. */
  lemma SubChanges<E>(s: Sys<E>, t: Sys<E>, id: nat)
    requires Inv(s) && id < |s.subs| && |t.subs| == |s.subs| && t.subs == s.subs[id := t.subs[id]]
    requires t.buffer == s.buffer && t.dropWhenFull == s.dropWhenFull
    requires SubOk(t.subs[id], s.buffer, s.dropWhenFull)
    requires t.wg + Running(s.subs[id]) == s.wg + Running(t.subs[id])
    requires t.dropped + Drops(s.subs[id]) == s.dropped + Drops(t.subs[id])
    requires forall k :: NobodySendsTo(s.publishers, k) ==> NobodySendsTo(t.publishers, k)
    requires t.subs[id].clean ==> NobodySendsTo(t.publishers, id)
    requires t.settled == s.settled && t.closing == s.closing
    requires s.subs[id].clean ==> t.subs[id].clean
    requires s.subs[id].loop.Exited? ==> t.subs[id].loop.Exited?
    requires !s.subs[id].loop.Unborn? ==> !t.subs[id].loop.Unborn?
    ensures Inv(t)
  {
    Update(s.subs, id, t.subs[id], Running);
    Update(s.subs, id, t.subs[id], Drops);
    forall k | 0 <= k < |t.subs| && t.subs[k].clean ensures NobodySendsTo(t.publishers, k) {
      assert k != id ==> s.subs[k].clean;
    }
  }

  lemma CountInKeepsInv<E>(s: Sys<E>, id: nat)
    requires Inv(s) && id < |s.subs|
    ensures Inv(Step(s, CountIn(id)))
  {
    var t := Step(s, CountIn(id));
    assert s.subs[id].clean ==> NobodySendsTo(s.publishers, id);
    if t.subs != s.subs { SubChanges(s, t, id); }
  }

  lemma StartKeepsInv<E>(s: Sys<E>, id: nat)
    requires Inv(s) && id < |s.subs|
    ensures Inv(Step(s, Start(id)))
  {
    var t := Step(s, Start(id));
    assert s.subs[id].clean ==> NobodySendsTo(s.publishers, id);
    if t.subs != s.subs { SubChanges(s, t, id); }
  }

  lemma SeeStopKeepsInv<E>(s: Sys<E>, id: nat)
    requires Inv(s) && id < |s.subs|
    ensures Inv(Step(s, SeeStop(id)))
  {
    var t := Step(s, SeeStop(id));
    assert s.subs[id].clean ==> NobodySendsTo(s.publishers, id);
    if t.subs != s.subs { SubChanges(s, t, id); }
  }

  lemma LeaveKeepsInv<E>(s: Sys<E>, id: nat)
    requires Inv(s) && id < |s.subs|
    ensures Inv(Step(s, Leave(id)))
  {
    var t := Step(s, Leave(id));
    assert s.subs[id].clean ==> NobodySendsTo(s.publishers, id);
    if t.subs != s.subs { SubChanges(s, t, id); }
  }

  lemma UnsubscribeKeepsInv<E>(s: Sys<E>, id: nat)
    requires Inv(s) && id < |s.subs|
    ensures Inv(Step(s, Unsubscribe(id)))
  {
    var t := Step(s, Unsubscribe(id));
    assert s.subs[id].clean ==> NobodySendsTo(s.publishers, id);
    if t.subs != s.subs { SubChanges(s, t, id); }
  }

  lemma TakeNextOk<E>(b: Sub<E>, buffer: nat, dropWhenFull: bool)
    requires SubOk(b, buffer, dropWhenFull) && b.inHand.None? && b.queue != [] && !b.loop.Exited?
    ensures SubOk(TakeNext(b), buffer, dropWhenFull)
  {
    assert b.handled + [] + b.queue == b.handled + [b.queue[0]] + b.queue[1..];
  }

  lemma PutAwayOk<E>(b: Sub<E>, buffer: nat, dropWhenFull: bool)
    requires SubOk(b, buffer, dropWhenFull) && b.inHand.Some?
    ensures SubOk(PutAway(b), buffer, dropWhenFull)
  {
    assert b.handled + [b.inHand.value] + b.queue == b.handled + [b.inHand.value] + [] + b.queue;
  }

  lemma QueueKeepsInv<E>(s: Sys<E>, e: Event<E>, id: nat)
    requires Inv(s) && id < |s.subs| && (e == Receive(id) || e == Handle(id))
    ensures Inv(Step(s, e))
  {
    var t := Step(s, e);
    var b := s.subs[id];
    assert b.clean ==> NobodySendsTo(s.publishers, id);
    if t.subs != s.subs {
      if e.Receive? { TakeNextOk(b, s.buffer, s.dropWhenFull); } else { PutAwayOk(b, s.buffer, s.dropWhenFull); }
      SubChanges(s, t, id);
    }
  }

  lemma DeliverShortens<E>(s: Sys<E>, who: nat, giveUp: bool)
    requires who < |s.publishers| && s.publishers[who].Sending? && s.publishers[who].rest != []
    requires s.publishers[who].rest[0] < |s.subs|
    ensures forall k :: NobodySendsTo(s.publishers, k) ==> NobodySendsTo(DeliverTo(s, who, giveUp).publishers, k)
  {
    var t := DeliverTo(s, who, giveUp);
    forall k: nat | NobodySendsTo(s.publishers, k) ensures NobodySendsTo(t.publishers, k) {
      forall i | 0 <= i < |t.publishers| ensures !Holds(t.publishers[i], k) {
        assert !Holds(s.publishers[i], k);
      }
    }
  }

  lemma SendOk<E>(b: Sub<E>, e: E, buffer: nat, dropWhenFull: bool)
    requires SubOk(b, buffer, dropWhenFull) && !b.clean
    ensures dropWhenFull ==> SubOk(Offer(b, e, buffer), buffer, dropWhenFull)
    ensures !dropWhenFull && |b.queue| < buffer ==> SubOk(Accept(b, e), buffer, dropWhenFull)
  {
  }

  lemma DeliverKeepsInv<E>(s: Sys<E>, who: nat, giveUp: bool)
    requires Inv(s)
    requires who < |s.publishers| && s.publishers[who].Sending? && s.publishers[who].rest != []
    requires s.publishers[who].rest[0] < |s.subs|
    ensures Inv(DeliverTo(s, who, giveUp))
  {
    var t := DeliverTo(s, who, giveUp);
    var id := s.publishers[who].rest[0];
    assert s.subs[id := s.subs[id]] == s.subs;
    assert !s.subs[id].clean by { assert Holds(s.publishers[who], id); }
    DeliverShortens(s, who, giveUp);
    SendOk(s.subs[id], s.publishers[who].event, s.buffer, s.dropWhenFull);
    SubChanges(s, t, id);
  }

  lemma SnapshotKeepsInv<E>(s: Sys<E>, e: Event<E>)
    requires Inv(s) && (e.Snapshot? || e.BeginPublish?)
    ensures Inv(Step(s, e))
  {
    var t := Step(s, e);
    forall id: nat | id < |s.subs| && s.subs[id].clean ensures NobodySendsTo(t.publishers, id) {
      assert NobodySendsTo(s.publishers, id);
      forall i | 0 <= i < |t.publishers| ensures !Holds(t.publishers[i], id) {
        if i < |s.publishers| { assert !Holds(s.publishers[i], id); }
      }
    }
  }

  lemma SubscribeKeepsInv<E>(s: Sys<E>)
    requires Inv(s)
    ensures Inv(Step(s, Subscribe))
  {
    Append(s.subs, NewSub(), Running);
    Append(s.subs, NewSub(), Drops);
  }

  lemma SignalKeepsInv<E>(s: Sys<E>)
    requires Inv(s)
    ensures Inv(Step(s, SignalAll))
  {
    if s.closing.Flagged? {
      StopAllKeeps(s.subs, s.publishers, s.buffer, s.dropWhenFull);
      SignalIsClean(s);
    }
  }

  lemma SignalIsClean<E>(s: Sys<E>)
    requires Quiet(s) && Settled(s) && s.closing.Flagged?
    ensures Quiet(Step(s, SignalAll)) && Settled(Step(s, SignalAll))
  {
    var t := Step(s, SignalAll);
    forall id | 0 <= id < |t.subs| && t.subs[id].clean ensures NobodySendsTo(t.publishers, id) {
      assert t.subs[id] == Stop(s.subs[id], id, s.publishers);
    }
  }

  lemma StopOk<E>(b: Sub<E>, id: nat, publishers: seq<Publisher<E>>, buffer: nat, dropWhenFull: bool)
    requires SubOk(b, buffer, dropWhenFull)
    ensures SubOk(Stop(b, id, publishers), buffer, dropWhenFull)
  {
  }

  lemma StopAllKeeps<E>(subs: seq<Sub<E>>, publishers: seq<Publisher<E>>, buffer: nat, dropWhenFull: bool)
    requires forall id :: 0 <= id < |subs| ==> SubOk(subs[id], buffer, dropWhenFull)
    ensures Total(StopAll(subs, publishers), Running) == Total(subs, Running)
    ensures Total(StopAll(subs, publishers), Drops) == Total(subs, Drops)
    ensures forall id :: 0 <= id < |subs| ==> SubOk(StopAll(subs, publishers)[id], buffer, dropWhenFull)
  {
    forall id | 0 <= id < |subs| ensures SubOk(StopAll(subs, publishers)[id], buffer, dropWhenFull) {
      StopOk(subs[id], id, publishers, buffer, dropWhenFull);
    }
    Same(subs, StopAll(subs, publishers), Running);
    Same(subs, StopAll(subs, publishers), Drops);
  }

  lemma CloseKeepsInv<E>(s: Sys<E>)
    requires Inv(s)
    ensures Inv(Step(s, CloseReturns))
  {
    if s.wg == 0 {
      forall id | id in s.settled ensures s.closing.Signalled? ==> s.subs[id].loop.Exited? {
        AtLeast(s.subs, id, Running);
      }
    }
  }

  lemma StepKeepsInv<E>(s: Sys<E>, e: Event<E>)
    requires Inv(s)
    ensures Inv(Step(s, e))
  {
    match e
    case Subscribe => SubscribeKeepsInv(s);
    case CountIn(id) => if id < |s.subs| { CountInKeepsInv(s, id); }
    case Start(id) => if id < |s.subs| { StartKeepsInv(s, id); }
    case Unsubscribe(id) => if id < |s.subs| { UnsubscribeKeepsInv(s, id); }
    case Receive(id) => if id < |s.subs| { QueueKeepsInv(s, e, id); }
    case Handle(id) => if id < |s.subs| { QueueKeepsInv(s, e, id); }
    case SeeStop(id) => if id < |s.subs| { SeeStopKeepsInv(s, id); }
    case Leave(id) => if id < |s.subs| { LeaveKeepsInv(s, id); }
    case BeginPublish(_) => SnapshotKeepsInv(s, e);
    case Snapshot(_, _) => SnapshotKeepsInv(s, e);
    case Deliver(who, giveUp) =>
      if && who < |s.publishers| && s.publishers[who].Sending? && s.publishers[who].rest != []
         && s.publishers[who].rest[0] < |s.subs| {
        DeliverKeepsInv(s, who, giveUp);
      }
    case SetClosed =>
    case SignalAll => SignalKeepsInv(s);
    case CloseReturns => CloseKeepsInv(s);
  }

  lemma {:induction false} Reachable<E>(bufferSize: int, dropWhenFull: bool, events: seq<Event<E>>)
    ensures Inv(Exec(Init(bufferSize, dropWhenFull), events))
    ensures Exec(Init(bufferSize, dropWhenFull), events).dropWhenFull == dropWhenFull
  {
    if events != [] {
      var s := Exec(Init(bufferSize, dropWhenFull), events[..|events| - 1]);
      Reachable(bufferSize, dropWhenFull, events[..|events| - 1]);
      StepKeepsInv(s, events[|events| - 1]);
      PolicyIsFixed(s, events[|events| - 1]);
    }
  }

  lemma PolicyIsFixed<E>(s: Sys<E>, e: Event<E>)
    ensures Step(s, e).dropWhenFull == s.dropWhenFull
  {
  }

  // ---------------------------------------------------------------------
  // Main results
  // ---------------------------------------------------------------------

  lemma InOrder<E>(b: Sub<E>, buffer: nat, dropWhenFull: bool)
    requires SubOk(b, buffer, dropWhenFull)
    ensures b.handled <= b.accepted
  {
    assert b.accepted == b.handled + (InHand(b) + b.queue);
  }

  /** For each subscriber the events taken so far are those handled, the one in
      hand and those queued, in order; the queue never exceeds its size, and
      under DropWhenFull every attempted send was accepted or counted as dropped. */
  lemma DeliveryIsFifo<E>(bufferSize: int, dropWhenFull: bool, events: seq<Event<E>>, id: nat)
    requires id < |Exec(Init(bufferSize, dropWhenFull), events).subs|
    ensures var s := Exec(Init(bufferSize, dropWhenFull), events);
            var b := s.subs[id];
            && b.accepted == b.handled + InHand(b) + b.queue
            && b.handled <= b.accepted
            && |b.queue| <= s.buffer
            && (dropWhenFull ==> b.attempts == |b.accepted| + b.dropped)
            && b.dropped <= s.dropped
  {
    Reachable(bufferSize, dropWhenFull, events);
    var s := Exec(Init(bufferSize, dropWhenFull), events);
    AtLeast(s.subs, id, Drops);
    InOrder(s.subs[id], s.buffer, dropWhenFull);
  }

  lemma DropsAreTotalled<E>(bufferSize: int, dropWhenFull: bool, events: seq<Event<E>>)
    ensures var s := Exec(Init(bufferSize, dropWhenFull), events);
            s.dropped == Total(s.subs, Drops) && (!dropWhenFull ==> s.dropped == 0)
  {
    Reachable(bufferSize, dropWhenFull, events);
    var s := Exec(Init(bufferSize, dropWhenFull), events);
    if !dropWhenFull { Vanishes(s.subs, Drops); }
  }

  lemma CleanStays<E>(s: Sys<E>, e: Event<E>, id: nat)
    requires id < |s.subs| && (s.subs[id].clean ==> !s.subs[id].listed)
    ensures id < |Step(s, e).subs|
    ensures s.subs[id].clean ==> Step(s, e).subs[id].clean
  {
  }

  lemma SettledStays<E>(s: Sys<E>, e: Event<E>, id: nat)
    requires !s.closing.Open? && !s.closing.Flagged? && id in s.settled
    ensures !Step(s, e).closing.Open? && !Step(s, e).closing.Flagged? && id in Step(s, e).settled
  {
  }

  /** What follows a stop does not undo it. */
  lemma {:induction false} StoppedForGood<E>(s: Sys<E>, more: seq<Event<E>>, id: nat)
    requires Inv(s) && id < |s.subs|
    ensures var t := Exec(s, more);
            && Inv(t) && id < |t.subs| && (s.subs[id].clean ==> t.subs[id].clean)
            && (!s.closing.Open? && !s.closing.Flagged? && id in s.settled ==>
                  !t.closing.Open? && !t.closing.Flagged? && id in t.settled)
  {
    if more != [] {
      var t := Exec(s, more[..|more| - 1]);
      StoppedForGood(s, more[..|more| - 1], id);
      StepKeepsInv(t, more[|more| - 1]);
      assert SubOk(t.subs[id], t.buffer, t.dropWhenFull);
      CleanStays(t, more[|more| - 1], id);
      if !t.closing.Open? && !t.closing.Flagged? && id in t.settled { SettledStays(t, more[|more| - 1], id); }
    }
  }

  /** The goroutine is gone and everything the channel ever took is handled. */
  ghost predicate Drained<E>(s: Sys<E>, id: nat) {
    id < |s.subs| && s.subs[id].loop.Exited? && s.subs[id].queue == [] && s.subs[id].handled == s.subs[id].accepted
  }

  /** Close flags the bus, later signals every stop and later still returns. By
      then a subscriber whose goroutine had been counted, and to which no Publish
      was about to send, when stop was signalled has handled exactly the events
      its channel ever took. */
  lemma CloseDrains<E>(s: Sys<E>, after: seq<Event<E>>, id: nat)
    requires Inv(s) && s.closing.Flagged? && id < |s.subs| && s.subs[id].listed && !s.subs[id].loop.Unborn?
    requires NobodySendsTo(s.publishers, id) && Exec(Step(s, SignalAll), after).closing.Closed?
    ensures Drained(Exec(Step(s, SignalAll), after), id)
  {
    StepKeepsInv(s, SignalAll);
    StoppedForGood(Step(s, SignalAll), after, id);
    var t := Exec(Step(s, SignalAll), after);
    assert SubOk(t.subs[id], t.buffer, t.dropWhenFull);
  }

  lemma Then<E>(s: Sys<E>, events: seq<Event<E>>, e: Event<E>)
    ensures Exec(s, events + [e]) == Step(Exec(s, events), e)
  {
    assert (events + [e])[..|events|] == events;
  }

  // ---------------------------------------------------------------------
  // What Publish delivers
  // ---------------------------------------------------------------------

  /** A publisher has each subscriber of its snapshot once, behind it or ahead. */
  ghost predicate Ahead<E>(p: Publisher<E>) {
    p.Sending? ==>
      && (forall k :: 0 <= k < |p.rest| ==> p.rest[k] !in p.sent)
      && (forall k, l :: 0 <= k < l < |p.rest| ==> p.rest[k] != p.rest[l])
  }

  ghost predicate HasPassed<E>(p: Publisher<E>, id: nat) {
    p.Sending? && id in p.sent
  }

  /** What subscriber `id` accepted came from publishers that have been through it,
      from each at most once; without DropWhenFull from each, unless it was stopped. */
  ghost predicate Credits<E>(b: Sub<E>, from: seq<nat>, publishers: seq<Publisher<E>>, id: nat, dropWhenFull: bool) {
    && |from| == |b.accepted|
    && (forall k :: 0 <= k < |from| ==>
          from[k] < |publishers| && HasPassed(publishers[from[k]], id) && publishers[from[k]].event == b.accepted[k])
    && (forall k, l :: 0 <= k < l < |from| ==> from[k] != from[l])
    && (!dropWhenFull && !b.stopped ==>
          forall who: nat :: who < |publishers| && HasPassed(publishers[who], id) ==> who in from)
  }

  ghost predicate Delivered<E>(s: Sys<E>) {
    && |s.senders| == |s.subs|
    && (forall i :: 0 <= i < |s.publishers| ==> Ahead(s.publishers[i]))
    && (forall i: nat, id: nat :: i < |s.publishers| && HasPassed(s.publishers[i], id) ==> id < |s.subs|)
    && (forall id :: 0 <= id < |s.subs| ==> Credits(s.subs[id], s.senders[id], s.publishers, id, s.dropWhenFull))
  }

  /** A subscription that accepts nothing may at most be stopped. */
  ghost predicate Alike<E>(b: Sub<E>, c: Sub<E>) {
    c.accepted == b.accepted && (b.stopped ==> c.stopped)
  }

  lemma DeliveredSame<E>(s: Sys<E>, t: Sys<E>)
    requires Delivered(s) && t.publishers == s.publishers && t.senders == s.senders
    requires t.dropWhenFull == s.dropWhenFull && |t.subs| == |s.subs|
    requires forall id :: 0 <= id < |s.subs| ==> Alike(s.subs[id], t.subs[id])
    ensures Delivered(t)
  {
    forall id | 0 <= id < |t.subs| ensures Credits(t.subs[id], t.senders[id], t.publishers, id, t.dropWhenFull) {
      assert Credits(s.subs[id], s.senders[id], s.publishers, id, s.dropWhenFull) && Alike(s.subs[id], t.subs[id]);
    }
  }

  lemma DeliveredBySubscribe<E>(s: Sys<E>)
    requires Delivered(s)
    ensures Delivered(Step(s, Subscribe))
  {
    var t := Step(s, Subscribe);
    forall id | 0 <= id < |t.subs| ensures Credits(t.subs[id], t.senders[id], t.publishers, id, t.dropWhenFull) {
      if id < |s.subs| {
        assert Credits(s.subs[id], s.senders[id], s.publishers, id, s.dropWhenFull);
      }
    }
  }

  /** The publishers grow, or one moves, without passing anybody. */
  lemma DeliveredByNobody<E>(s: Sys<E>, publishers: seq<Publisher<E>>)
    requires Delivered(s) && |s.publishers| <= |publishers|
    requires forall i :: 0 <= i < |publishers| ==> Ahead(publishers[i])
    requires forall i: nat, id: nat :: i < |publishers| ==>
               (HasPassed(publishers[i], id) <==> i < |s.publishers| && HasPassed(s.publishers[i], id))
    requires forall i :: 0 <= i < |s.publishers| ==> publishers[i].event == s.publishers[i].event
    ensures Delivered(s.(publishers := publishers))
  {
    forall id | 0 <= id < |s.subs| ensures Credits(s.subs[id], s.senders[id], publishers, id, s.dropWhenFull) {
      assert Credits(s.subs[id], s.senders[id], s.publishers, id, s.dropWhenFull);
    }
  }

  /** A publisher passes subscriber `id`, which accepts its event. */
  lemma CreditGiven<E>(b: Sub<E>, c: Sub<E>, from: seq<nat>, publishers: seq<Publisher<E>>, id: nat,
                       dropWhenFull: bool, who: nat, q: Publisher<E>)
    requires Credits(b, from, publishers, id, dropWhenFull) && who < |publishers| && !HasPassed(publishers[who], id)
    requires HasPassed(q, id) && q.event == publishers[who].event
    requires c.accepted == b.accepted + [q.event] && c.stopped == b.stopped
    ensures Credits(c, from + [who], publishers[who := q], id, dropWhenFull)
  {
    assert forall k :: 0 <= k < |from| ==> from[k] != who;
  }

  /** A publisher passes subscriber `id`, which accepts nothing. */
  lemma CreditLost<E>(b: Sub<E>, c: Sub<E>, from: seq<nat>, publishers: seq<Publisher<E>>, id: nat,
                      dropWhenFull: bool, who: nat, q: Publisher<E>)
    requires Credits(b, from, publishers, id, dropWhenFull) && who < |publishers| && !HasPassed(publishers[who], id)
    requires c.accepted == b.accepted && c.stopped == b.stopped && (dropWhenFull || b.stopped)
    ensures Credits(c, from, publishers[who := q], id, dropWhenFull)
  {
    assert forall k :: 0 <= k < |from| ==> from[k] != who;
  }

  /** A publisher passes somebody else. */
  lemma CreditKept<E>(b: Sub<E>, from: seq<nat>, publishers: seq<Publisher<E>>, id: nat, dropWhenFull: bool,
                      who: nat, q: Publisher<E>)
    requires Credits(b, from, publishers, id, dropWhenFull) && who < |publishers| && q.event == publishers[who].event
    requires HasPassed(q, id) <==> HasPassed(publishers[who], id)
    ensures Credits(b, from, publishers[who := q], id, dropWhenFull)
  {
  }

  lemma DeliveredByDeliver<E>(s: Sys<E>, who: nat, giveUp: bool)
    requires Delivered(s)
    requires who < |s.publishers| && s.publishers[who].Sending? && s.publishers[who].rest != []
    requires s.publishers[who].rest[0] < |s.subs|
    ensures Delivered(DeliverTo(s, who, giveUp))
  {
    var t := DeliverTo(s, who, giveUp);
    if t != s {
      var p, q := s.publishers[who], t.publishers[who];
      var id := p.rest[0];
      assert Ahead(p) && Ahead(q) && !HasPassed(p, id) && HasPassed(q, id);
      forall i: nat, k: nat | i < |t.publishers| && HasPassed(t.publishers[i], k) ensures k < |t.subs| {
        assert k == id || HasPassed(s.publishers[i], k);
      }
      forall k | 0 <= k < |t.subs| ensures Credits(t.subs[k], t.senders[k], t.publishers, k, t.dropWhenFull) {
        assert Credits(s.subs[k], s.senders[k], s.publishers, k, s.dropWhenFull);
        if k != id {
          CreditKept(s.subs[k], s.senders[k], s.publishers, k, s.dropWhenFull, who, q);
        } else if t.subs[id].accepted == s.subs[id].accepted {
          CreditLost(s.subs[id], t.subs[id], s.senders[id], s.publishers, id, s.dropWhenFull, who, q);
        } else {
          CreditGiven(s.subs[id], t.subs[id], s.senders[id], s.publishers, id, s.dropWhenFull, who, q);
        }
      }
    }
  }

  lemma DeliveredBySnapshot<E>(s: Sys<E>, who: nat, order: seq<nat>)
    requires Delivered(s) && who < |s.publishers| && s.publishers[who].Checked? && IsSnapshot(s.subs, order)
    ensures Delivered(Step(s, Snapshot(who, order)))
  {
    DeliveredByNobody(s, s.publishers[who := Sending(s.publishers[who].event, order, {})]);
  }

  lemma DeliveredByOthers<E>(s: Sys<E>, e: Event<E>)
    requires Delivered(s)
    requires !e.Subscribe? && !e.BeginPublish? && !e.Snapshot? && !e.Deliver? && !e.SignalAll?
    ensures Delivered(Step(s, e))
  {
    DeliveredSame(s, Step(s, e));
  }

  lemma DeliveredBySignal<E>(s: Sys<E>)
    requires Delivered(s)
    ensures Delivered(Step(s, SignalAll))
  {
    DeliveredSame(s, Step(s, SignalAll));
  }

  lemma DeliveredKept<E>(s: Sys<E>, e: Event<E>)
    requires Delivered(s)
    ensures Delivered(Step(s, e))
  {
    match e
    case Subscribe => DeliveredBySubscribe(s);
    case BeginPublish(event) => if s.closing.Open? { DeliveredByNobody(s, s.publishers + [Checked(event)]); }
    case Snapshot(who, order) =>
      if who < |s.publishers| && s.publishers[who].Checked? && IsSnapshot(s.subs, order) {
        DeliveredBySnapshot(s, who, order);
      }
    case Deliver(who, giveUp) =>
      if && who < |s.publishers| && s.publishers[who].Sending? && s.publishers[who].rest != []
         && s.publishers[who].rest[0] < |s.subs| {
        DeliveredByDeliver(s, who, giveUp);
      }
    case SignalAll => DeliveredBySignal(s);
    case _ => DeliveredByOthers(s, e);
  }

  /** In every run each subscriber's accepted events are those of the publishers in
      its list of senders, which have been through it and occur there once; without
      DropWhenFull every publisher that has been through it does, unless it was stopped. */
  lemma {:induction false} EverySendCounts<E>(bufferSize: int, dropWhenFull: bool, events: seq<Event<E>>)
    ensures Delivered(Exec(Init(bufferSize, dropWhenFull), events))
    ensures Exec(Init(bufferSize, dropWhenFull), events).dropWhenFull == dropWhenFull
  {
    if events != [] {
      var s := Exec(Init(bufferSize, dropWhenFull), events[..|events| - 1]);
      EverySendCounts(bufferSize, dropWhenFull, events[..|events| - 1]);
      DeliveredKept(s, events[|events| - 1]);
      PolicyIsFixed(s, events[|events| - 1]);
    }
  }

  /** Behind a publisher and ahead of it there are always the same subscribers. */
  ghost predicate Visits<E>(s: Sys<E>, who: nat, event: E, all: set<nat>) {
    && who < |s.publishers| && s.publishers[who].Sending? && s.publishers[who].event == event
    && forall id :: id in all <==> id in s.publishers[who].sent || id in s.publishers[who].rest
  }

  lemma VisitsKept<E>(s: Sys<E>, e: Event<E>, who: nat, event: E, all: set<nat>)
    requires Visits(s, who, event, all)
    ensures Visits(Step(s, e), who, event, all)
  {
    var p := s.publishers[who];
    if e.Deliver? && e.who == who && p.rest != [] {
      assert p.rest == [p.rest[0]] + p.rest[1..];
    }
  }

  lemma {:induction false} VisitsAll<E>(s: Sys<E>, more: seq<Event<E>>, who: nat, event: E, all: set<nat>)
    requires Visits(s, who, event, all)
    ensures Visits(Exec(s, more), who, event, all)
  {
    if more != [] {
      VisitsAll(s, more[..|more| - 1], who, event, all);
      VisitsKept(Exec(s, more[..|more| - 1]), more[|more| - 1], who, event, all);
    }
  }

  /** Without DropWhenFull a Publish that has got to the end of its snapshot has had
      its event accepted by every subscriber in it that is not stopped. */
  lemma BlockingReachesEverybody<E>(bufferSize: int, before: seq<Event<E>>, who: nat, order: seq<nat>,
                                    after: seq<Event<E>>, id: nat)
    requires var s := Exec(Init(bufferSize, false), before);
             && who < |s.publishers| && s.publishers[who].Checked? && IsSnapshot(s.subs, order)
             && id < |s.subs| && s.subs[id].listed
    requires var t := Exec(Step(Exec(Init(bufferSize, false), before), Snapshot(who, order)), after);
             who < |t.publishers| && t.publishers[who].Sending? && t.publishers[who].rest == []
    ensures var s := Exec(Init(bufferSize, false), before);
            var t := Exec(Step(s, Snapshot(who, order)), after);
            id < |t.subs| && (t.subs[id].stopped || s.publishers[who].event in t.subs[id].accepted)
  {
    var init := Init<E>(bufferSize, false);
    var s := Exec(init, before);
    var started := Step(s, Snapshot(who, order));
    var event := s.publishers[who].event;
    var all := set k | k in order;
    assert Visits(started, who, event, all);
    VisitsAll(started, after, who, event, all);
    var t := Exec(started, after);
    Then(init, before, Snapshot(who, order));
    SomeThenMore(init, before + [Snapshot(who, order)], after);
    EverySendCounts(bufferSize, false, before + [Snapshot(who, order)] + after);
    assert id in order && HasPassed(t.publishers[who], id);
    assert Credits(t.subs[id], t.senders[id], t.publishers, id, false);
  }

  // ---------------------------------------------------------------------
  // What a send does, and what becomes of it
  // ---------------------------------------------------------------------

  lemma BufferIsFixed<E>(s: Sys<E>, e: Event<E>)
    ensures Step(s, e).buffer == s.buffer
  {
  }

  lemma {:induction false} Configured<E>(bufferSize: int, dropWhenFull: bool, events: seq<Event<E>>)
    ensures Exec(Init(bufferSize, dropWhenFull), events).buffer == if bufferSize <= 0 then 16 else bufferSize
  {
    if events != [] {
      Configured(bufferSize, dropWhenFull, events[..|events| - 1]);
      BufferIsFixed(Exec(Init(bufferSize, dropWhenFull), events[..|events| - 1]), events[|events| - 1]);
    }
  }

  predicate AtSend<E>(s: Sys<E>, who: nat) {
    && who < |s.publishers| && s.publishers[who].Sending? && s.publishers[who].rest != []
    && s.publishers[who].rest[0] < |s.subs|
  }

  /** From `s` to `t` the publisher makes its next send: it goes through exactly when
      the subscriber's queue is shorter than `size`. Under DropWhenFull it is dropped
      and counted otherwise; without, the publisher waits, unless it gives up on a
      subscriber that has been stopped. Nobody else is touched. */
  ghost predicate Sends<E>(s: Sys<E>, t: Sys<E>, who: nat, giveUp: bool, size: nat)
    requires AtSend(s, who)
  {
    var p := s.publishers[who];
    var id := p.rest[0];
    var b := s.subs[id];
    var room := |b.queue| < size;
    var quits := !s.dropWhenFull && b.stopped && giveUp;
    && |t.subs| == |s.subs| && (forall k :: 0 <= k < |s.subs| && k != id ==> t.subs[k] == s.subs[k])
    && t.subs[id].accepted == (if room && !quits then b.accepted + [p.event] else b.accepted)
    && t.subs[id].queue == (if room && !quits then b.queue + [p.event] else b.queue)
    && t.subs[id].handled == b.handled && t.subs[id].inHand == b.inHand && t.subs[id].loop == b.loop
    && t.subs[id].dropped == (if s.dropWhenFull && !room then b.dropped + 1 else b.dropped)
    && t.dropped == (if s.dropWhenFull && !room then s.dropped + 1 else s.dropped)
    && t.publishers == (if room || s.dropWhenFull || quits
                        then s.publishers[who := Sending(p.event, p.rest[1..], p.sent + {id})]
                        else s.publishers)
  }

  lemma DeliverSends<E>(s: Sys<E>, who: nat, giveUp: bool)
    requires AtSend(s, who)
    ensures Sends(s, DeliverTo(s, who, giveUp), who, giveUp, s.buffer)
  {
  }

  /** What a publisher's next send does, in any run, by the size the bus was made with. */
  lemma SendDecides<E>(bufferSize: int, dropWhenFull: bool, events: seq<Event<E>>, who: nat, giveUp: bool)
    requires AtSend(Exec(Init(bufferSize, dropWhenFull), events), who)
    ensures var s := Exec(Init(bufferSize, dropWhenFull), events);
            Sends(s, Step(s, Deliver(who, giveUp)), who, giveUp, if bufferSize <= 0 then 16 else bufferSize)
  {
    Configured(bufferSize, dropWhenFull, events);
    DeliverSends(Exec(Init(bufferSize, dropWhenFull), events), who, giveUp);
  }

  /** Once the bus is flagged closed no further Publish gets past its check. */
  lemma {:induction false} NoPublishAfterClose<E>(s: Sys<E>, more: seq<Event<E>>)
    requires !s.closing.Open?
    ensures !Exec(s, more).closing.Open? && |Exec(s, more).publishers| == |s.publishers|
  {
    if more != [] {
      NoPublishAfterClose(s, more[..|more| - 1]);
    }
  }

  /** The subscription with everything it has accepted handled. */
  function CaughtUp<E>(b: Sub<E>): Sub<E> {
    b.(queue := [], inHand := None, handled := b.accepted)
  }

  lemma CaughtUpBy<E>(s: Sys<E>, id: nat)
    requires id < |s.subs| && SubOk(s.subs[id], s.buffer, s.dropWhenFull) && s.subs[id].loop.Live?
    requires s.subs[id].inHand.Some? || s.subs[id].queue != []
    ensures var t := Step(s, if s.subs[id].inHand.Some? then Handle(id) else Receive(id));
            && t == s.(subs := s.subs[id := t.subs[id]]) && SubOk(t.subs[id], s.buffer, s.dropWhenFull)
            && t.subs[id].loop.Live? && CaughtUp(t.subs[id]) == CaughtUp(s.subs[id])
            && Work(t.subs[id]) < Work(s.subs[id])
  {
    var b := s.subs[id];
    if b.inHand.Some? { PutAwayOk(b, s.buffer, s.dropWhenFull); } else { TakeNextOk(b, s.buffer, s.dropWhenFull); }
  }

  /** A subscriber's goroutine need not be stopped to go on: it can always handle
      everything its channel has taken, nobody else doing anything. */
  lemma {:induction false} LiveCatchesUp<E>(s: Sys<E>, id: nat) returns (events: seq<Event<E>>)
    requires id < |s.subs| && SubOk(s.subs[id], s.buffer, s.dropWhenFull) && s.subs[id].loop.Live?
    ensures Exec(s, events) == s.(subs := s.subs[id := CaughtUp(s.subs[id])])
    decreases Work(s.subs[id])
  {
    var b := s.subs[id];
    if b.inHand.None? && b.queue == [] {
      assert b.handled + [] + [] == b.handled;
      assert s.subs[id := b] == s.subs;
      return [];
    }
    var e := if b.inHand.Some? then Handle(id) else Receive(id);
    var t := Step(s, e);
    CaughtUpBy(s, id);
    var more := LiveCatchesUp(t, id);
    OneThenMore(s, e, more);
    events := [e] + more;
  }

  lemma SentIsHandled<E>(s: Sys<E>, who: nat) returns (events: seq<Event<E>>)
    requires Inv(s) && 1 <= s.buffer && !s.dropWhenFull && AtSend(s, who)
    requires var b := s.subs[s.publishers[who].rest[0]]; b.queue == [] && b.inHand.None? && b.loop.Live?
    ensures var id := s.publishers[who].rest[0];
            var t := Exec(s, events);
            && id < |t.subs| && t.subs[id].accepted == s.subs[id].accepted + [s.publishers[who].event]
            && t.subs[id].handled == t.subs[id].accepted
  {
    var id := s.publishers[who].rest[0];
    DeliverSends(s, who, false);
    StepKeepsInv(s, Deliver(who, false));
    var t := Step(s, Deliver(who, false));
    var more := LiveCatchesUp(t, id);
    OneThenMore(s, Deliver(who, false), more);
    events := [Deliver(who, false)] + more;
  }

  /** So a Publish that waits for a live subscriber can always get its event in, and
      have it handled. */
  lemma {:induction false} WaitingSendGetsIn<E>(bufferSize: int, before: seq<Event<E>>, who: nat)
    returns (events: seq<Event<E>>)
    requires var s := Exec(Init(bufferSize, false), before);
             AtSend(s, who) && s.subs[s.publishers[who].rest[0]].loop.Live?
    ensures var s := Exec(Init(bufferSize, false), before);
            var id := s.publishers[who].rest[0];
            var t := Exec(s, events);
            && id < |t.subs| && t.subs[id].accepted == s.subs[id].accepted + [s.publishers[who].event]
            && t.subs[id].handled == t.subs[id].accepted
  {
    var s := Exec(Init(bufferSize, false), before);
    var id := s.publishers[who].rest[0];
    Reachable(bufferSize, false, before);
    Configured(bufferSize, false, before);
    var first := LiveCatchesUp(s, id);
    CatchingUpKeepsInv(s, id);
    var second := SentIsHandled(Exec(s, first), who);
    SomeThenMore(s, first, second);
    events := first + second;
  }

  lemma CatchingUpKeepsInv<E>(s: Sys<E>, id: nat)
    requires Inv(s) && id < |s.subs| && s.subs[id].loop.Live?
    ensures Inv(s.(subs := s.subs[id := CaughtUp(s.subs[id])]))
  {
    var b := s.subs[id];
    assert SubOk(b, s.buffer, s.dropWhenFull) && b.clean ==> NobodySendsTo(s.publishers, id);
    assert b.accepted == b.accepted + [] + [];
    SubChanges(s, s.(subs := s.subs[id := CaughtUp(b)]), id);
  }

  // ---------------------------------------------------------------------
  // Exactly when Close drains
  // ---------------------------------------------------------------------

  /** However the run goes on after the stops are signalled, once Close has
      returned the subscriber's goroutine is gone and everything its channel ever
      took is handled. */
  ghost predicate AlwaysDrained<E(!new)>(s: Sys<E>, id: nat) {
    forall after :: Exec(Step(s, SignalAll), after).closing.Closed? ==> Drained(Exec(Step(s, SignalAll), after), id)
  }

  /** What Publish and Subscribe leave behind: room to send, subscribers that are
      listed or stopped, and snapshots of subscribers that exist. */
  ghost predicate Placed<E>(s: Sys<E>) {
    && 1 <= s.buffer
    && (forall k :: 0 <= k < |s.subs| ==> s.subs[k].listed || s.subs[k].stopped)
    && (forall i :: 0 <= i < |s.publishers| ==> Aimed(s.publishers[i], |s.subs|))
  }

  ghost predicate Aimed<E>(p: Publisher<E>, size: nat) {
    p.Sending? ==> forall k :: 0 <= k < |p.rest| ==> p.rest[k] < size
  }

  lemma AimedAhead<E>(p: Publisher<E>, size: nat)
    requires p.Sending? && p.rest != [] && Aimed(p, size)
    ensures Aimed(p.(rest := p.rest[1..], sent := p.sent + {p.rest[0]}), size)
  {
  }

  lemma PlacedKeptByDeliver<E>(s: Sys<E>, who: nat, giveUp: bool)
    requires Placed(s) && who < |s.publishers| && s.publishers[who].Sending? && s.publishers[who].rest != []
    requires s.publishers[who].rest[0] < |s.subs|
    ensures Placed(DeliverTo(s, who, giveUp))
  {
    AimedAhead(s.publishers[who], |s.subs|);
  }

  lemma PlacedKept<E>(s: Sys<E>, e: Event<E>)
    requires Placed(s)
    ensures Placed(Step(s, e))
  {
    if e.Deliver? {
      if && e.who < |s.publishers| && s.publishers[e.who].Sending? && s.publishers[e.who].rest != []
         && s.publishers[e.who].rest[0] < |s.subs| {
        PlacedKeptByDeliver(s, e.who, e.giveUp);
      }
    } else if e.Snapshot? && IsSnapshot(s.subs, e.order) {
      assert forall k :: 0 <= k < |e.order| ==> e.order[k] in e.order;
    }
  }

  lemma {:induction false} AlwaysPlaced<E>(bufferSize: int, dropWhenFull: bool, events: seq<Event<E>>)
    ensures Placed(Exec(Init(bufferSize, dropWhenFull), events))
  {
    if events != [] {
      AlwaysPlaced(bufferSize, dropWhenFull, events[..|events| - 1]);
      PlacedKept(Exec(Init(bufferSize, dropWhenFull), events[..|events| - 1]), events[|events| - 1]);
    }
  }

  lemma {:induction false} OneThenMore<E>(s: Sys<E>, e: Event<E>, more: seq<Event<E>>)
    ensures Exec(s, [e] + more) == Exec(Step(s, e), more)
  {
    if more == [] {
      assert [e] + more == [] + [e];
      Then(s, [], e);
    } else {
      assert ([e] + more)[..|[e] + more| - 1] == [e] + more[..|more| - 1];
      OneThenMore(s, e, more[..|more| - 1]);
    }
  }

  lemma {:induction false} SomeThenMore<E>(s: Sys<E>, some: seq<Event<E>>, more: seq<Event<E>>)
    ensures Exec(s, some + more) == Exec(Exec(s, some), more)
  {
    if more == [] {
      assert some + more == some;
    } else {
      assert (some + more)[..|some + more| - 1] == some + more[..|more| - 1];
      SomeThenMore(s, some, more[..|more| - 1]);
    }
  }

  /** The steps a stopped goroutine has left to take. */
  function Work<E>(b: Sub<E>): nat {
    if Running(b) == 0 then 0
    else (if b.loop.Counted? then 3 else if b.loop.Live? then 2 else 1)
         + 2 * |b.queue| + if b.inHand.Some? then 1 else 0
  }

  function NextOf<E>(b: Sub<E>, id: nat): Event<E> {
    if b.loop.Counted? then Start(id)
    else if b.inHand.Some? then Handle(id)
    else if b.loop.Live? then SeeStop(id)
    else if b.queue != [] then Receive(id)
    else Leave(id)
  }

  /** Only goroutines that were already uncounted or gone are as they were; the
      others are gone with nothing left to handle. */
  ghost predicate RanOut<E>(s: Sys<E>, t: Sys<E>) {
    && |t.subs| == |s.subs|
    && (forall k :: 0 <= k < |s.subs| ==>
          if Running(s.subs[k]) == 0 then t.subs[k] == s.subs[k]
          else t.subs[k].loop.Exited? && t.subs[k].queue == [] && t.subs[k].stopped)
    && t.publishers == s.publishers && t.buffer == s.buffer && t.dropWhenFull == s.dropWhenFull
    && t.closing == s.closing
  }

  lemma NextIsTaken<E>(s: Sys<E>, id: nat)
    requires id < |s.subs| && Running(s.subs[id]) == 1 && s.subs[id].stopped && 0 < s.wg
    ensures var t := Step(s, NextOf(s.subs[id], id));
            && |t.subs| == |s.subs| && t.subs == s.subs[id := t.subs[id]] && t.subs[id].stopped
            && Work(t.subs[id]) < Work(s.subs[id])
            && (Running(t.subs[id]) == 1 || (t.subs[id].loop.Exited? && t.subs[id].queue == []))
            && t.publishers == s.publishers && t.buffer == s.buffer && t.dropWhenFull == s.dropWhenFull
            && t.closing == s.closing
  {
  }

  ghost predicate AllStopped<E>(s: Sys<E>) {
    forall k :: 0 <= k < |s.subs| && Running(s.subs[k]) == 1 ==> s.subs[k].stopped
  }

  /** Once everybody is stopped the goroutines can all finish without another send. */
  lemma {:induction false} RunOut<E>(s: Sys<E>) returns (events: seq<Event<E>>)
    requires Inv(s) && AllStopped(s)
    ensures Inv(Exec(s, events)) && RanOut(s, Exec(s, events)) && Exec(s, events).wg == 0
    decreases Total(s.subs, Work)
  {
    if s.wg == 0 {
      forall k | 0 <= k < |s.subs| ensures Running(s.subs[k]) == 0 {
        AtLeast(s.subs, k, Running);
      }
      return [];
    }
    var id := Witness(s.subs, Running);
    var e := NextOf(s.subs[id], id);
    var t := Step(s, e);
    NextIsTaken(s, id);
    StepKeepsInv(s, e);
    Update(s.subs, id, t.subs[id], Work);
    var more := RunOut(t);
    OneThenMore(s, e, more);
    events := [e] + more;
  }

  /** A publisher on its way to `id` gets there and leaves its event. */
  lemma {:induction false} SendArrives<E>(s: Sys<E>, who: nat, id: nat) returns (events: seq<Event<E>>)
    requires Placed(s) && (forall k :: 0 <= k < |s.subs| ==> s.subs[k].stopped)
    requires who < |s.publishers| && Holds(s.publishers[who], id) && id < |s.subs|
    requires s.subs[id].queue == [] && s.subs[id].loop.Exited?
    ensures var t := Exec(s, events);
            id < |t.subs| && t.subs[id].queue != [] && t.closing == s.closing
    decreases |s.publishers[who].rest|
  {
    var e := Deliver(who, s.publishers[who].rest[0] != id);
    assert Aimed(s.publishers[who], |s.subs|);
    var t := Step(s, e);
    if s.publishers[who].rest[0] == id {
      events := [];
    } else {
      PlacedKept(s, e);
      events := SendArrives(t, who, id);
    }
    OneThenMore(s, e, events);
    events := [e] + events;
  }

  lemma SignalStopsAll<E>(s: Sys<E>)
    requires Inv(s) && Placed(s) && s.closing.Flagged?
    ensures var t := Step(s, SignalAll);
            && Inv(t) && Placed(t) && (forall k :: 0 <= k < |t.subs| ==> t.subs[k].stopped)
            && t.closing.Signalled? && t.publishers == s.publishers && |t.subs| == |s.subs|
            && forall k :: 0 <= k < |s.subs| ==> t.subs[k].loop == s.subs[k].loop
  {
    StepKeepsInv(s, SignalAll);
    PlacedKept(s, SignalAll);
  }

  lemma RunOutIsPlaced<E>(t: Sys<E>, u: Sys<E>, v: Sys<E>)
    requires RanOut(t, u) && Placed(t) && (forall k :: 0 <= k < |t.subs| ==> t.subs[k].stopped)
    requires v == u.(closing := Closed)
    ensures Placed(v) && forall k :: 0 <= k < |v.subs| ==> v.subs[k].stopped
  {
    forall k | 0 <= k < |v.subs| ensures v.subs[k].stopped {
      assert t.subs[k].stopped;
    }
    forall i | 0 <= i < |v.publishers| ensures Aimed(v.publishers[i], |v.subs|) {
      assert Aimed(t.publishers[i], |t.subs|);
    }
  }

  /** Without the condition Close can return with the subscriber's goroutine not
      gone, or gone with an event still in its queue. */
  lemma CanBeLost<E>(s: Sys<E>, id: nat) returns (after: seq<Event<E>>)
    requires Inv(s) && Placed(s) && s.closing.Flagged? && id < |s.subs| && s.subs[id].listed
    requires s.subs[id].loop.Unborn? || !NobodySendsTo(s.publishers, id)
    ensures var t := Exec(Step(s, SignalAll), after); t.closing.Closed? && !Drained(t, id)
  {
    var t := Step(s, SignalAll);
    SignalStopsAll(s);
    var drain := RunOut(t);
    var u := Exec(t, drain);
    Then(t, drain, CloseReturns);
    after := drain + [CloseReturns];
    var v := Exec(t, after);
    assert v == u.(closing := Closed);
    if !s.subs[id].loop.Unborn? {
      var who :| 0 <= who < |s.publishers| && Holds(s.publishers[who], id);
      assert SubOk(s.subs[id], s.buffer, s.dropWhenFull) && Running(t.subs[id]) == 1;
      RunOutIsPlaced(t, u, v);
      var send := SendArrives(v, who, id);
      SomeThenMore(t, after, send);
      after := after + send;
    }
  }

  /** When the stops are signalled Close is certain to drain a subscriber exactly
      when its goroutine has been counted and no Publish is about to send to it. */
  lemma CloseDrainsIff<E(!new)>(bufferSize: int, dropWhenFull: bool, before: seq<Event<E>>, id: nat)
    requires var s := Exec(Init(bufferSize, dropWhenFull), before);
             s.closing.Flagged? && id < |s.subs| && s.subs[id].listed
    ensures var s := Exec(Init(bufferSize, dropWhenFull), before);
            AlwaysDrained(s, id) <==> !s.subs[id].loop.Unborn? && NobodySendsTo(s.publishers, id)
  {
    var s := Exec(Init(bufferSize, dropWhenFull), before);
    Reachable(bufferSize, dropWhenFull, before);
    if !s.subs[id].loop.Unborn? && NobodySendsTo(s.publishers, id) {
      forall after | Exec(Step(s, SignalAll), after).closing.Closed?
        ensures Drained(Exec(Step(s, SignalAll), after), id)
      {
        CloseDrains(s, after, id);
      }
    } else {
      AlwaysPlaced(bufferSize, dropWhenFull, before);
      var after := CanBeLost(s, id);
    }
  }

  /** A bus about to signal its stops, with one subscriber and one Publish that has
      taken its snapshot. */
  lemma SnapshotTaken() returns (events: seq<Event<int>>)
    ensures var s := Exec(Init(1, true), events);
            && s.subs == [NewSub().(loop := Live)] && s.publishers == [Sending(7, [0], {})] && s.closing.Flagged?
  {
    var s := Init<int>(1, true);
    Then(s, [], Subscribe);
    events := [] + [Subscribe];
    Then(s, events, CountIn(0));
    events := events + [CountIn(0)];
    Then(s, events, Start(0));
    events := events + [Start(0)];
    Then(s, events, BeginPublish(7));
    events := events + [BeginPublish(7)];
    var t := Exec(s, events);
    assert t.subs == [NewSub().(loop := Live)];
    assert IsSnapshot(t.subs, [0]);
    Then(s, events, Snapshot(0, [0]));
    events := events + [Snapshot(0, [0])];
    Then(s, events, SetClosed);
    events := events + [SetClosed];
  }

  /** The condition is needed: a Publish that had its snapshot when stop was
      signalled can put an event where nobody will handle it. */
  lemma LateSendIsLost() returns (before: seq<Event<int>>, after: seq<Event<int>>)
    ensures var s := Exec(Init(1, true), before);
            && s.closing.Flagged? && |s.subs| == 1 && s.subs[0].listed && s.subs[0].loop.Live?
            && s.publishers == [Sending(7, [0], {})]
    ensures var t := Exec(Step(Exec(Init(1, true), before), SignalAll), after);
            t.closing.Closed? && !Drained(t, 0)
  {
    before := SnapshotTaken();
    var s := Exec(Init(1, true), before);
    Reachable(1, true, before);
    AlwaysPlaced(1, true, before);
    assert Holds(s.publishers[0], 0);
    after := CanBeLost(s, 0);
  }

  /** The same for an Unsubscribe, once the goroutine has gone. */
  lemma UnsubscribeDrains<E>(s: Sys<E>, after: seq<Event<E>>, id: nat)
    requires Inv(s) && id < |s.subs| && s.subs[id].listed && !s.subs[id].loop.Unborn?
    requires NobodySendsTo(s.publishers, id)
    ensures var t := Exec(Step(s, Unsubscribe(id)), after);
            id < |t.subs| && (t.subs[id].loop.Exited? ==> Drained(t, id))
  {
    StepKeepsInv(s, Unsubscribe(id));
    StoppedForGood(Step(s, Unsubscribe(id)), after, id);
    var t := Exec(Step(s, Unsubscribe(id)), after);
    assert SubOk(t.subs[id], t.buffer, t.dropWhenFull);
  }

  /** A goroutine is gone only after its subscription was stopped. */
  lemma OnlyStoppedLeave<E>(bufferSize: int, dropWhenFull: bool, events: seq<Event<E>>, id: nat)
    requires var s := Exec(Init(bufferSize, dropWhenFull), events);
             id < |s.subs| && s.subs[id].loop.Exited?
    ensures var b := Exec(Init(bufferSize, dropWhenFull), events).subs[id];
            b.stopped && !b.listed && b.inHand.None?
  {
    Reachable(bufferSize, dropWhenFull, events);
  }
}
