/** internal/kv under concurrency.

    Get is three steps: read under the shard's read lock, read the clock, and,
    if the entry looked expired, take the write lock and delete what is still
    there with the same expiry. Sweep reads the clock once and then visits one
    shard per step. Between any two steps other calls may run and time may pass.

    `shadow` is what the store would hold if expired entries were never removed:
    only Set, SetWithTTL and Delete touch it.
 */
module KVConcurrent {
  import opened KV
  import opened Options

  /** A Get in progress or done: `readAt` and `lookedAt` are when it read the
      store and the clock. A Hit returns its entry's value. */
  datatype Getter<V> =
    | Began(key: string)
    | Seen(key: string, entry: Entry<V>, readAt: int)
    | Stale(key: string, entry: Entry<V>, readAt: int, lookedAt: int)
    | Hit(key: string, entry: Entry<V>, readAt: int, lookedAt: int)
    | Missed(key: string, found: Option<Entry<V>>, readAt: int, lookedAt: int)

  datatype Sweeper = Sweeper(now: int, next: nat)

  datatype Sys<V> = Sys(
    index: string -> nat,
    flat: Store<V>, shadow: Store<V>, clock: int,
    getters: seq<Getter<V>>, sweepers: seq<Sweeper>)

  datatype Event<V> =
    | Tick(ns: nat)
    | BeginGet(key: string)
    | Read(who: nat)
    | Look(who: nat)
    | Drop(who: nat)
    | Put(key: string, value: V, ttl: int)
    | Erase(key: string)
    | BeginSweep
    | SweepNext(who: nat)

  function Init<V>(index: string -> nat, clock: int): Sys<V> {
    Sys(index, map[], map[], clock, [], [])
  }

  /** The delete under the write lock, re-checking the expiry seen earlier. */
  function DropIfSame<V>(m: Store<V>, key: string, e: Entry<V>): Store<V> {
    if key in m && m[key].expiresAt == e.expiresAt then m - {key} else m
  }

  function ShardSwept<V>(m: Store<V>, index: string -> nat, shard: nat, now: int): Store<V> {
    map k | k in m && (index(k) != shard || Live(m[k], now)) :: m[k]
  }

  function Step<V>(s: Sys<V>, e: Event<V>): Sys<V> {
    match e
    case Tick(ns) => s.(clock := s.clock + ns)
    case BeginGet(key) => s.(getters := s.getters + [Began(key)])
    case Read(i) =>
      if i < |s.getters| && s.getters[i].Began? then
        var key := s.getters[i].key;
        s.(getters := s.getters[i := if key in s.flat then Seen(key, s.flat[key], s.clock)
                                     else Missed(key, None, s.clock, s.clock)])
      else s
    case Look(i) =>
      if i < |s.getters| && s.getters[i].Seen? then
        var g := s.getters[i];
        s.(getters := s.getters[i := if Live(g.entry, s.clock) then Hit(g.key, g.entry, g.readAt, s.clock)
                                     else Stale(g.key, g.entry, g.readAt, s.clock)])
      else s
    case Drop(i) =>
      if i < |s.getters| && s.getters[i].Stale? then
        var g := s.getters[i];
        s.(flat := DropIfSame(s.flat, g.key, g.entry),
           getters := s.getters[i := Missed(g.key, Some(g.entry), g.readAt, g.lookedAt)])
      else s
    case Put(key, value, ttl) =>
      s.(flat := s.flat[key := Fresh(value, ttl, s.clock)],
         shadow := s.shadow[key := Fresh(value, ttl, s.clock)])
    case Erase(key) => s.(flat := s.flat - {key}, shadow := s.shadow - {key})
    case BeginSweep => s.(sweepers := s.sweepers + [Sweeper(s.clock, 0)])
    case SweepNext(i) =>
      if i < |s.sweepers| then
        var w := s.sweepers[i];
        s.(flat := ShardSwept(s.flat, s.index, w.next, w.now), sweepers := s.sweepers[i := w.(next := w.next + 1)])
      else s
  }

  function Exec<V>(s: Sys<V>, events: seq<Event<V>>): Sys<V> {
    if events == [] then s
    else Step(Exec(s, events[..|events| - 1]), events[|events| - 1])
  }

  /** What is missing from the store would have expired by now anyway. */
  ghost predicate Agree<V>(s: Sys<V>) {
    && (forall k :: k in s.flat ==> k in s.shadow && s.shadow[k] == s.flat[k])
    && (forall k :: k in s.shadow && k !in s.flat ==> !Live(s.shadow[k], s.clock))
  }

  /** A getter in mid-call read no later than now; what it calls stale is. */
  ghost predicate GetterOk<V>(g: Getter<V>, clock: int) {
    match g
    case Began(_) => true
    case Seen(_, _, readAt) => readAt <= clock
    case Stale(_, e, readAt, lookedAt) => readAt <= lookedAt <= clock && !Live(e, lookedAt)
    case Hit(_, e, readAt, lookedAt) => readAt <= lookedAt && Live(e, lookedAt)
    case Missed(_, found, readAt, lookedAt) => readAt <= lookedAt && (found.Some? ==> !Live(found.value, lookedAt))
  }

  ghost predicate Inv<V>(s: Sys<V>) {
    && Agree(s)
    && (forall i :: 0 <= i < |s.getters| ==> GetterOk(s.getters[i], s.clock))
    && (forall i :: 0 <= i < |s.sweepers| ==> s.sweepers[i].now <= s.clock)
  }

  lemma StepKeepsInv<V>(s: Sys<V>, e: Event<V>)
    requires Inv(s)
    ensures Inv(Step(s, e))
  {
  }

  lemma {:induction false} Reachable<V>(index: string -> nat, clock: int, events: seq<Event<V>>)
    ensures Inv(Exec(Init(index, clock), events))
  {
    if events != [] {
      Reachable(index, clock, events[..|events| - 1]);
      StepKeepsInv(Exec(Init(index, clock), events[..|events| - 1]), events[|events| - 1]);
    }
  }

  /** Whatever runs in between, an entry leaves the store only because it is
      deleted or overwritten by a caller, or because it has expired at the very
      moment of removal. */
  lemma {:induction false} OnlyExpiredEntriesVanish<V>(index: string -> nat, clock: int, events: seq<Event<V>>,
                                                       e: Event<V>, key: string)
    requires var s := Exec(Init(index, clock), events);
             key in s.flat && !(e.Erase? && e.key == key) && !(e.Put? && e.key == key)
    ensures var s := Exec(Init(index, clock), events);
            if key in Step(s, e).flat then Step(s, e).flat[key] == s.flat[key]
            else !Live(s.flat[key], s.clock) && (e.Drop? || e.SweepNext?)
  {
    Reachable(index, clock, events);
  }

  /** Expiry is invisible: now and at every later time the store answers as the
      one that never removed anything. */
  lemma {:induction false} ExpiryIsInvisible<V>(index: string -> nat, clock: int, events: seq<Event<V>>,
                                                key: string, at: int)
    requires Exec(Init(index, clock), events).clock <= at
    ensures var s := Exec(Init(index, clock), events);
            Lookup(s.flat, key, at) == Lookup(s.shadow, key, at)
  {
    Reachable(index, clock, events);
  }

  predicate Touches<V>(e: Event<V>, key: string) {
    (e.Put? && e.key == key) || (e.Erase? && e.key == key)
  }

  lemma UntouchedBy<V>(s: Sys<V>, e: Event<V>, key: string)
    requires !Touches(e, key)
    ensures key in Step(s, e).shadow <==> key in s.shadow
    ensures key in s.shadow ==> Step(s, e).shadow[key] == s.shadow[key]
  {
  }

  lemma {:induction false} Untouched<V>(s: Sys<V>, key: string, more: seq<Event<V>>)
    requires Inv(s) && forall n :: 0 <= n < |more| ==> !Touches(more[n], key)
    ensures Inv(Exec(s, more))
    ensures key in Exec(s, more).shadow <==> key in s.shadow
    ensures key in s.shadow ==> Exec(s, more).shadow[key] == s.shadow[key]
  {
    if more != [] {
      Untouched(s, key, more[..|more| - 1]);
      StepKeepsInv(Exec(s, more[..|more| - 1]), more[|more| - 1]);
      UntouchedBy(Exec(s, more[..|more| - 1]), more[|more| - 1], key);
    }
  }

  /** From a Put until the next write of its key, whatever else runs, the store holds
      the value and its expiry for exactly as long as the time to live says: the time
      of the Put and `ttl`, or for ever. An expiry at time zero reads as none. */
  lemma {:induction false} ValueLivesFor<V>(index: string -> nat, clock: int, before: seq<Event<V>>,
                                            key: string, value: V, ttl: int, more: seq<Event<V>>, at: int)
    requires forall n :: 0 <= n < |more| ==> !Touches(more[n], key)
    requires Exec(Step(Exec(Init(index, clock), before), Put(key, value, ttl)), more).clock <= at
    ensures var written := Exec(Init(index, clock), before).clock;
            var m := Exec(Step(Exec(Init(index, clock), before), Put(key, value, ttl)), more).flat;
            && (key in m ==> m[key] == Entry(value, if ttl <= 0 then 0 else written + ttl))
            && (key in m && (m[key].expiresAt == 0 || at < m[key].expiresAt)
                <==> ttl <= 0 || written + ttl == 0 || at < written + ttl)
  {
    var s := Exec(Init(index, clock), before);
    Reachable(index, clock, before);
    StepKeepsInv(s, Put(key, value, ttl));
    Untouched(Step(s, Put(key, value, ttl)), key, more);
  }

  /** A Get, its four steps uninterrupted. */
  function Got<V>(s: Sys<V>, key: string): Sys<V> {
    Step(Step(Step(Step(s, BeginGet(key)), Read(|s.getters|)), Look(|s.getters|)), Drop(|s.getters|))
  }

  /** What a Get returns after a Put, and that it removes what it finds expired. */
  lemma {:induction false} PutThenGet<V>(index: string -> nat, clock: int, before: seq<Event<V>>,
                                         key: string, value: V, ttl: int, more: seq<Event<V>>)
    requires forall n :: 0 <= n < |more| ==> !Touches(more[n], key)
    ensures var written := Exec(Init(index, clock), before).clock;
            var t := Exec(Step(Exec(Init(index, clock), before), Put(key, value, ttl)), more);
            var u := Got(t, key);
            && |u.getters| == |t.getters| + 1
            && if ttl <= 0 || written + ttl == 0 || t.clock < written + ttl
               then u.getters[|t.getters|].Hit? && u.getters[|t.getters|].entry.value == value && u.flat == t.flat
               else u.getters[|t.getters|].Missed? && u.flat == t.flat - {key}
  {
    var t := Exec(Step(Exec(Init(index, clock), before), Put(key, value, ttl)), more);
    ValueLivesFor(index, clock, before, key, value, ttl, more, t.clock);
    GetSteps(t, key);
  }

  lemma GetSteps<V>(s: Sys<V>, key: string)
    ensures var u := Got(s, key);
            && |u.getters| == |s.getters| + 1
            && if key in s.flat && (s.flat[key].expiresAt == 0 || s.clock < s.flat[key].expiresAt)
               then u.getters[|s.getters|] == Hit(key, s.flat[key], s.clock, s.clock) && u.flat == s.flat
               else u.getters[|s.getters|].Missed? && u.flat == s.flat - {key}
  {
    var begun := Step(s, BeginGet(key));
    var read := Step(begun, Read(|s.getters|));
    assert read.getters[|s.getters|]
           == if key in s.flat then Seen(key, s.flat[key], s.clock) else Missed(key, None, s.clock, s.clock);
  }

  /** Until it is written again a deleted key is answered with nothing. */
  lemma {:induction false} DeletedStaysDeleted<V>(index: string -> nat, clock: int, before: seq<Event<V>>,
                                                  key: string, more: seq<Event<V>>)
    requires forall n :: 0 <= n < |more| ==> !Touches(more[n], key)
    ensures key !in Exec(Step(Exec(Init(index, clock), before), Erase(key)), more).flat
  {
    var s := Exec(Init(index, clock), before);
    Reachable(index, clock, before);
    StepKeepsInv(s, Erase(key));
    Untouched(Step(s, Erase(key)), key, more);
  }

  /** What a sweep has passed held nothing expired when it began, and never will. */
  ghost predicate Passed<V>(s: Sys<V>, w: Sweeper) {
    forall k :: k in s.flat && s.index(k) < w.next ==> s.flat[k].expiresAt == 0 || w.now < s.flat[k].expiresAt
  }

  lemma PassedKept<V>(s: Sys<V>, e: Event<V>, i: nat)
    requires i < |s.sweepers| && s.sweepers[i].now <= s.clock && Passed(s, s.sweepers[i])
    ensures i < |Step(s, e).sweepers| && Passed(Step(s, e), Step(s, e).sweepers[i])
  {
  }

  lemma {:induction false} SweepersHavePassed<V>(index: string -> nat, clock: int, events: seq<Event<V>>, i: nat)
    requires i < |Exec(Init(index, clock), events).sweepers|
    ensures Passed(Exec(Init(index, clock), events), Exec(Init(index, clock), events).sweepers[i])
  {
    var s := Exec(Init(index, clock), events[..|events| - 1]);
    Reachable(index, clock, events[..|events| - 1]);
    if i < |s.sweepers| {
      SweepersHavePassed(index, clock, events[..|events| - 1], i);
      PassedKept(s, events[|events| - 1], i);
    }
  }

  lemma {:induction false} IndexIsFixed<V>(index: string -> nat, clock: int, events: seq<Event<V>>)
    ensures Exec(Init(index, clock), events).index == index
  {
    if events != [] { IndexIsFixed(index, clock, events[..|events| - 1]); }
  }

  /** In any run, a Sweep that has been through every shard has left no entry that had
      expired as it began, and none comes back. */
  lemma {:induction false} SweepLeavesNoneExpired<V>(index: string -> nat, clock: int, events: seq<Event<V>>, i: nat)
    requires var s := Exec(Init(index, clock), events);
             i < |s.sweepers| && forall k :: index(k) < s.sweepers[i].next
    ensures var s := Exec(Init(index, clock), events);
            forall k :: k in s.flat ==> s.flat[k].expiresAt == 0 || s.sweepers[i].now < s.flat[k].expiresAt
  {
    SweepersHavePassed(index, clock, events, i);
    IndexIsFixed(index, clock, events);
  }

  function Visits<V>(who: nat, shards: nat): seq<Event<V>> {
    if shards == 0 then [] else Visits(who, shards - 1) + [SweepNext(who)]
  }

  /** The sweep has been through the first `shards` shards, and nothing else has happened. */
  ghost predicate SweptTo<V>(s: Sys<V>, t: Sys<V>, who: nat, shards: nat)
    requires who < |s.sweepers|
  {
    && t == s.(flat := t.flat, sweepers := s.sweepers[who := Sweeper(s.sweepers[who].now, shards)])
    && (forall k :: k in t.flat <==>
          && k in s.flat
          && (s.index(k) >= shards || s.flat[k].expiresAt == 0 || s.sweepers[who].now < s.flat[k].expiresAt))
    && (forall k :: k in t.flat ==> t.flat[k] == s.flat[k])
  }

  lemma VisitOne<V>(s: Sys<V>, t: Sys<V>, who: nat, shards: nat)
    requires who < |s.sweepers| && SweptTo(s, t, who, shards)
    ensures SweptTo(s, Step(t, SweepNext(who)), who, shards + 1)
  {
    var u := Step(t, SweepNext(who));
    assert u.flat == ShardSwept(t.flat, s.index, shards, s.sweepers[who].now);
    forall k ensures k in u.flat <==>
      k in s.flat && (s.index(k) >= shards + 1 || s.flat[k].expiresAt == 0 || s.sweepers[who].now < s.flat[k].expiresAt)
    {
    }
  }

  lemma {:induction false} VisitsSweep<V>(s: Sys<V>, who: nat, shards: nat)
    requires who < |s.sweepers| && s.sweepers[who].next == 0
    ensures SweptTo(s, Exec(s, Visits(who, shards)), who, shards)
  {
    if shards == 0 {
      assert s.sweepers[who := Sweeper(s.sweepers[who].now, 0)] == s.sweepers;
    } else {
      VisitsSweep(s, who, shards - 1);
      VisitsCount<V>(who, shards - 1);
      assert Visits<V>(who, shards)[..shards - 1] == Visits(who, shards - 1);
      VisitOne(s, Exec(s, Visits(who, shards - 1)), who, shards - 1);
    }
  }

  lemma {:induction false} VisitsCount<V>(who: nat, shards: nat)
    ensures |Visits<V>(who, shards)| == shards
  {
    if shards != 0 { VisitsCount<V>(who, shards - 1); }
  }

  /** A sweep that nothing interrupts, shard by shard, leaves of the store exactly what
      has not expired by the time it began. */
  lemma {:induction false} SweepAlone<V>(s: Sys<V>, shards: nat)
    requires forall k :: s.index(k) < shards
    ensures var t := Exec(Step(s, BeginSweep), Visits(|s.sweepers|, shards));
            && (forall k :: k in t.flat <==>
                  k in s.flat && (s.flat[k].expiresAt == 0 || s.clock < s.flat[k].expiresAt))
            && (forall k :: k in t.flat ==> t.flat[k] == s.flat[k])
            && t.shadow == s.shadow && t.clock == s.clock
  {
    VisitsSweep(Step(s, BeginSweep), |s.sweepers|, shards);
  }

  /** At some moment of the run, when the clock stood at `at`, the store held
      `found` under the key. */
  ghost predicate Held<V>(index: string -> nat, clock: int, events: seq<Event<V>>,
                          key: string, found: Option<Entry<V>>, at: int) {
    exists n: nat :: n <= |events| && HeldAfter(Exec(Init(index, clock), events[..n]), key, found, at)
  }

  predicate HeldAfter<V(==)>(s: Sys<V>, key: string, found: Option<Entry<V>>, at: int) {
    s.clock == at && found == if key in s.flat then Some(s.flat[key]) else None
  }

  ghost predicate ReadFromRun<V>(index: string -> nat, clock: int, events: seq<Event<V>>, g: Getter<V>) {
    g.Began? || Held(index, clock, events, g.key, Found(g), g.readAt)
  }

  /** What a getter's read found. */
  function Found<V>(g: Getter<V>): Option<Entry<V>>
    requires !g.Began?
  {
    if g.Missed? then g.found else Some(g.entry)
  }

  /** A getter finds what the store holds when it reads, and does not read again. */
  lemma ReadOnce<V>(s: Sys<V>, e: Event<V>, who: nat)
    requires who < |Step(s, e).getters|
    ensures var t := Step(s, e).getters[who];
            if |s.getters| <= who then t.Began?
            else
              var g := s.getters[who];
              t.key == g.key
              && if g.Began? then
                   t.Began?
                   || (Found(t) == (if g.key in s.flat then Some(s.flat[g.key]) else None) && t.readAt == s.clock)
                 else
                   !t.Began? && Found(t) == Found(g) && t.readAt == g.readAt
  {
  }

  lemma HeldStill<V>(index: string -> nat, clock: int, events: seq<Event<V>>, e: Event<V>,
                     key: string, found: Option<Entry<V>>, at: int)
    requires Held(index, clock, events, key, found, at)
    ensures Held(index, clock, events + [e], key, found, at)
  {
    var n: nat :| n <= |events| && HeldAfter(Exec(Init(index, clock), events[..n]), key, found, at);
    assert (events + [e])[..n] == events[..n];
  }

  lemma {:induction false} HeldNow<V>(index: string -> nat, clock: int, events: seq<Event<V>>, e: Event<V>, key: string)
    ensures var s := Exec(Init(index, clock), events);
            Held(index, clock, events + [e], key, if key in s.flat then Some(s.flat[key]) else None, s.clock)
  {
    assert (events + [e])[..|events|] == events;
    var s := Exec(Init(index, clock), events);
    assert HeldAfter(Exec(Init(index, clock), (events + [e])[..|events|]), key,
                     if key in s.flat then Some(s.flat[key]) else None, s.clock);
  }

  /** What a getter knows carries over a step; what it learns by reading was held before it. */
  lemma {:induction false} ReadAcrossStep<V>(index: string -> nat, clock: int, events: seq<Event<V>>,
                                             e: Event<V>, who: nat)
    requires var s := Exec(Init(index, clock), events);
             && who < |Step(s, e).getters|
             && (who < |s.getters| ==> ReadFromRun(index, clock, events, s.getters[who]))
    ensures ReadFromRun(index, clock, events + [e], Step(Exec(Init(index, clock), events), e).getters[who])
  {
    var s := Exec(Init(index, clock), events);
    ReadOnce(s, e, who);
    if who < |s.getters| {
      var g := s.getters[who];
      if g.Began? {
        HeldNow(index, clock, events, e, g.key);
      } else {
        HeldStill(index, clock, events, e, g.key, Found(g), g.readAt);
      }
    }
  }

  lemma {:induction false} GettersReadFromRun<V>(index: string -> nat, clock: int, events: seq<Event<V>>, who: nat)
    requires who < |Exec(Init(index, clock), events).getters|
    ensures ReadFromRun(index, clock, events, Exec(Init(index, clock), events).getters[who])
  {
    var front := events[..|events| - 1];
    if who < |Exec(Init(index, clock), front).getters| {
      GettersReadFromRun(index, clock, front, who);
    }
    ReadAcrossStep(index, clock, front, events[|events| - 1], who);
    assert front + [events[|events| - 1]] == events;
  }

  /** A hit returns what the store held under the key at a moment of the run, not
      expired then nor when the clock was looked at; a miss means that at such a
      moment the key was absent, or was held by an entry that had expired when
      the clock was looked at. */
  lemma {:induction false} AnswersAreCurrent<V>(index: string -> nat, clock: int, events: seq<Event<V>>, who: nat)
    requires who < |Exec(Init(index, clock), events).getters|
    ensures var g := Exec(Init(index, clock), events).getters[who];
            g.Hit? ==> Held(index, clock, events, g.key, Some(g.entry), g.readAt)
                       && Live(g.entry, g.readAt) && Live(g.entry, g.lookedAt)
    ensures var g := Exec(Init(index, clock), events).getters[who];
            g.Missed? ==> Held(index, clock, events, g.key, g.found, g.readAt)
                          && (g.found.Some? ==> !Live(g.found.value, g.lookedAt))
  {
    Reachable(index, clock, events);
    GettersReadFromRun(index, clock, events, who);
    assert GetterOk(Exec(Init(index, clock), events).getters[who], Exec(Init(index, clock), events).clock);
  }

  // ---------------------------------------------------------------------
  // When a miss is false
  // ---------------------------------------------------------------------

  predicate There<V>(s: Sys<V>, key: string) {
    Lookup(s.flat, key, s.clock).Some?
  }

  /** At every moment of a run from `s` the store would answer with a value. */
  ghost predicate AlwaysThere<V>(s: Sys<V>, key: string, more: seq<Event<V>>) {
    There(Exec(s, more), key) && (more == [] || AlwaysThere(s, key, more[..|more| - 1]))
  }

  function Current<V>(m: Store<V>, key: string): Option<Entry<V>> {
    if key in m then Some(m[key]) else None
  }

  /** What an event does to the key's entry. */
  function Rewritten<V>(e: Option<Entry<V>>, clock: int, key: string, event: Event<V>): Option<Entry<V>> {
    match event
    case Put(k, value, ttl) => if k == key then Some(Fresh(value, ttl, clock)) else e
    case Erase(k) => if k == key then None else e
    case _ => e
  }

  /** A key's entry and the time, as the callers' own writes and the clock make them. */
  datatype Account<V> = Account(entry: Option<Entry<V>>, clock: int)

  function Written<V>(start: Account<V>, key: string, more: seq<Event<V>>): Account<V> {
    if more == [] then start
    else
      var w := Written(start, key, more[..|more| - 1]);
      var event := more[|more| - 1];
      Account(Rewritten(w.entry, w.clock, key, event), w.clock + if event.Tick? then event.ns else 0)
  }

  /** The key's entry is live, and is replaced each time before it expires. Only the
      clock and the callers' own writes matter. */
  predicate Renewed<V>(start: Account<V>, key: string, more: seq<Event<V>>) {
    var w := Written(start, key, more);
    w.entry.Some? && Live(w.entry.value, w.clock) && (more == [] || Renewed(start, key, more[..|more| - 1]))
  }

  lemma {:induction false} RenewedFromTheStart<V>(start: Account<V>, key: string, more: seq<Event<V>>)
    ensures Renewed(start, key, more) ==> start.entry.Some? && Live(start.entry.value, start.clock)
  {
    if more != [] {
      RenewedFromTheStart(start, key, more[..|more| - 1]);
    }
  }

  lemma StepRewrites<V>(s: Sys<V>, key: string, event: Event<V>)
    ensures Current(Step(s, event).shadow, key) == Rewritten(Current(s.shadow, key), s.clock, key, event)
    ensures Step(s, event).clock == s.clock + if event.Tick? then event.ns else 0
  {
  }

  lemma ThereIsLive<V>(s: Sys<V>, key: string)
    requires Inv(s)
    ensures There(s, key) <==> key in s.shadow && Live(s.shadow[key], s.clock)
  {
  }

  lemma {:induction false} WrittenIs<V>(s: Sys<V>, key: string, more: seq<Event<V>>)
    requires Inv(s)
    ensures Inv(Exec(s, more))
    ensures Written(Account(Current(s.shadow, key), s.clock), key, more)
            == Account(Current(Exec(s, more).shadow, key), Exec(s, more).clock)
  {
    if more != [] {
      var front := more[..|more| - 1];
      WrittenIs(s, key, front);
      StepKeepsInv(Exec(s, front), more[|more| - 1]);
      StepRewrites(Exec(s, front), key, more[|more| - 1]);
    }
  }

  /** Whether the store answers throughout is for the clock and the writes to say:
      no sweep and no other Get makes a difference. */
  lemma {:induction false} AlwaysThereIff<V>(s: Sys<V>, key: string, more: seq<Event<V>>)
    requires Inv(s)
    ensures AlwaysThere(s, key, more) <==> Renewed(Account(Current(s.shadow, key), s.clock), key, more)
  {
    WrittenIs(s, key, more);
    ThereIsLive(Exec(s, more), key);
    if more != [] {
      AlwaysThereIff(s, key, more[..|more| - 1]);
    }
  }

  predicate Writes<V>(e: Event<V>, key: string) {
    e.Put? && e.key == key
  }

  /** A Get that has not read, or has read this entry, or has hit. */
  ghost predicate OnCourse<V>(s: Sys<V>, key: string, entry: Entry<V>, who: nat) {
    who < |s.getters|
    && (s.getters[who] == Began(key) || s.getters[who].Hit?
        || (s.getters[who].Seen? && s.getters[who].key == key && s.getters[who].entry == entry))
  }

  lemma StillUnwritten<V>(s: Sys<V>, e: Event<V>, key: string, entry: Entry<V>, who: nat)
    requires Inv(s) && There(s, key) && There(Step(s, e), key) && !Writes(e, key)
    requires Current(s.shadow, key) == Some(entry) && OnCourse(s, key, entry, who)
    ensures Inv(Step(s, e)) && Current(Step(s, e).shadow, key) == Some(entry)
    ensures OnCourse(Step(s, e), key, entry, who)
  {
    StepKeepsInv(s, e);
    ThereIsLive(s, key);
    ThereIsLive(Step(s, e), key);
  }

  /** While nobody writes the key and it is there all along, a Get of it is not on
      its way to a miss. */
  lemma {:induction false} NoMissUnwritten<V>(s: Sys<V>, key: string, more: seq<Event<V>>, who: nat)
    requires Inv(s) && who < |s.getters| && s.getters[who] == Began(key) && AlwaysThere(s, key, more)
    requires forall n :: 0 <= n < |more| ==> !Writes(more[n], key)
    ensures key in s.shadow && Inv(Exec(s, more))
    ensures Current(Exec(s, more).shadow, key) == Some(s.shadow[key])
    ensures OnCourse(Exec(s, more), key, s.shadow[key], who)
  {
    if more == [] {
      ThereIsLive(s, key);
    } else {
      var front := more[..|more| - 1];
      NoMissUnwritten(s, key, front, who);
      StillUnwritten(Exec(s, front), more[|more| - 1], key, s.shadow[key], who);
    }
  }

  /** A Get that misses is wrong at every moment of its call exactly when the key's
      entry was live as it began and was renewed in time throughout; and that takes
      a write of the key while it runs. */
  lemma {:induction false} FalseMissIff<V>(index: string -> nat, clock: int, before: seq<Event<V>>, more: seq<Event<V>>,
                        who: nat, key: string)
    requires var s := Exec(Init(index, clock), before);
             who < |s.getters| && s.getters[who] == Began(key) && who < |Exec(s, more).getters|
             && Exec(s, more).getters[who].Missed?
    ensures var s := Exec(Init(index, clock), before);
            AlwaysThere(s, key, more) <==> Renewed(Account(Current(s.flat, key), s.clock), key, more)
    ensures var s := Exec(Init(index, clock), before);
            AlwaysThere(s, key, more) ==> exists n :: 0 <= n < |more| && Writes(more[n], key)
  {
    var s := Exec(Init(index, clock), before);
    Reachable(index, clock, before);
    AlwaysThereIff(s, key, more);
    if Current(s.flat, key) != Current(s.shadow, key) {
      RenewedFromTheStart(Account(Current(s.flat, key), s.clock), key, more);
      RenewedFromTheStart(Account(Current(s.shadow, key), s.clock), key, more);
    }
    if AlwaysThere(s, key, more) && forall n :: 0 <= n < |more| ==> !Writes(more[n], key) {
      NoMissUnwritten(s, key, more, who);
    }
  }

  lemma {:induction false} Then<V>(s: Sys<V>, events: seq<Event<V>>, e: Event<V>) returns (more: seq<Event<V>>)
    ensures more == events + [e] && Exec(s, more) == Step(Exec(s, events), e)
    ensures forall key :: AlwaysThere(s, key, events) && There(Exec(s, more), key) ==> AlwaysThere(s, key, more)
  {
    more := events + [e];
    assert more[..|events|] == events;
  }

  lemma {:induction false} GetBegins(index: string -> nat) returns (before: seq<Event<int>>)
    ensures var s := Exec(Init(index, 0), before);
            s.getters == [Began("k")] && s.clock == 0 && s.flat == map["k" := Entry(1, 5)]
  {
    var s := Init<int>(index, 0);
    before := Then(s, [], Put("k", 1, 5));
    before := Then(s, before, BeginGet("k"));
  }

  /** Such a Get: it reads an entry that is replaced before it expires, but looks at
      the clock after. */
  lemma {:induction false} FalseMiss(index: string -> nat) returns (before: seq<Event<int>>, more: seq<Event<int>>)
    ensures var s := Exec(Init(index, 0), before);
            && s.getters == [Began("k")] && Exec(s, more).getters == [Missed("k", Some(Entry(1, 5)), 0, 5)]
            && AlwaysThere(s, "k", more)
  {
    before := GetBegins(index);
    var s := Exec(Init(index, 0), before);
    more := Then(s, [], Read(0));
    assert Exec(s, more).getters == [Seen("k", Entry(1, 5), 0)];
    more := Then(s, more, Put("k", 2, 100));
    more := Then(s, more, Tick(5));
    var ticked := Exec(s, more);
    assert ticked.getters == [Seen("k", Entry(1, 5), 0)] && ticked.flat == map["k" := Entry(2, 100)];
    more := Then(s, more, Look(0));
    assert Exec(s, more).getters == [Stale("k", Entry(1, 5), 0, 5)];
    more := Then(s, more, Drop(0));
  }
}
