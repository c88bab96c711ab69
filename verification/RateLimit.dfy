/** internal/ratelimit: the token bucket.

    Clock readings are integers in nanoseconds and the float64 fields are reals,
    so rounding is abstracted; the truncation of a wait to whole nanoseconds is
    not, since WaitN has to cope with it.
 */
module RateLimit {
  import opened Options

  const SECOND: int := 1_000_000_000
  const MILLISECOND: int := 1_000_000

  /** A Bucket's configuration and the fields guarded by its mutex. */
  datatype Level = Level(rate: real, burst: nat, tokens: real, lastFill: int)

  ghost predicate Valid(b: Level) {
    0.0 < b.rate && 1 <= b.burst && 0.0 <= b.tokens <= b.burst as real
  }

  /** Tokens that flow in during `ns` nanoseconds. */
  function Flow(rate: real, ns: real): real {
    ns / SECOND as real * rate
  }

  function Gain(rate: real, ns: int): real {
    Flow(rate, ns as real)
  }

  function Capped(tokens: real, burst: nat): real {
    if tokens > burst as real then burst as real else tokens
  }

  function Refill(b: Level, now: int): Level {
    if now - b.lastFill <= 0 then b
    else b.(tokens := Capped(b.tokens + Gain(b.rate, now - b.lastFill), b.burst), lastFill := now)
  }

  datatype Op = Allow(n: int, at: int) | Peek(at: int)

  datatype Answer = Allowed(ok: bool) | Available(tokens: real)

  function Perform(b: Level, op: Op): (Level, Answer) {
    match op
    case Allow(n, at) =>
      if n <= 0 then (b, Allowed(true))
      else
        var r := Refill(b, at);
        if r.tokens >= n as real then (r.(tokens := r.tokens - n as real), Allowed(true))
        else (r, Allowed(false))
    case Peek(at) =>
      var r := Refill(b, at);
      (r, Available(r.tokens))
  }

  /** Tokens handed out by one operation. */
  function Grant(b: Level, op: Op): nat {
    if op.Allow? && 0 < op.n && Perform(b, op).1 == Allowed(true) then op.n else 0
  }

  function Exec(b: Level, ops: seq<Op>): Level
    decreases |ops|
  {
    if ops == [] then b else Exec(Perform(b, ops[0]).0, ops[1..])
  }

  function Granted(b: Level, ops: seq<Op>): nat
    decreases |ops|
  {
    if ops == [] then 0 else Grant(b, ops[0]) + Granted(Perform(b, ops[0]).0, ops[1..])
  }

  function Answers(b: Level, ops: seq<Op>): seq<Answer>
    decreases |ops|
  {
    if ops == [] then [] else [Perform(b, ops[0]).1] + Answers(Perform(b, ops[0]).0, ops[1..])
  }

  /** How long WaitN sleeps after finding too few tokens. */
  function Wait(b: Level, n: nat): (ns: int)
    requires 0.0 < b.rate
    ensures 0 < ns
  {
    var wait := ((n as real - b.tokens) / b.rate * SECOND as real).Floor;
    if wait <= 0 then MILLISECOND else wait
  }

  // ---------------------------------------------------------------------
  // The window bound
  // ---------------------------------------------------------------------

  lemma GainAdds(rate: real, a: int, b: int)
    ensures Gain(rate, a + b) == Gain(rate, a) + Gain(rate, b)
  {
    assert (a + b) as real / SECOND as real == a as real / SECOND as real + b as real / SECOND as real;
  }

  lemma GainGrows(rate: real, a: int, b: int)
    requires 0.0 < rate && a <= b
    ensures Gain(rate, a) <= Gain(rate, b) && (0 <= a ==> 0.0 <= Gain(rate, a))
  {
    assert a as real / SECOND as real <= b as real / SECOND as real;
  }

  lemma RefillKeeps(b: Level, now: int)
    requires Valid(b)
    ensures var r := Refill(b, now);
            && Valid(r) && b.lastFill <= r.lastFill
            && b.tokens <= r.tokens <= b.tokens + Gain(b.rate, r.lastFill - b.lastFill)
  {
    GainGrows(b.rate, 0, if now > b.lastFill then now - b.lastFill else 0);
  }

  lemma PerformKeeps(b: Level, op: Op)
    requires Valid(b)
    ensures var after := Perform(b, op).0;
            && Valid(after) && after.rate == b.rate && after.burst == b.burst && b.lastFill <= after.lastFill
            && Grant(b, op) as real + after.tokens <= b.tokens + Gain(b.rate, after.lastFill - b.lastFill)
  {
    RefillKeeps(b, op.at);
  }

  /** Between any two points of any run, whatever the clock did: the level stays
      within [0, burst], and the tokens granted are at most `burst` plus `rate`
      times the advance of `lastFill`. */
  lemma {:induction false} WindowBound(b: Level, ops: seq<Op>)
    requires Valid(b)
    ensures var after := Exec(b, ops);
            && Valid(after) && after.rate == b.rate && after.burst == b.burst && b.lastFill <= after.lastFill
            && Granted(b, ops) as real + after.tokens <= b.tokens + Gain(b.rate, after.lastFill - b.lastFill)
            && Granted(b, ops) as real <= b.burst as real + Gain(b.rate, after.lastFill - b.lastFill)
    decreases |ops|
  {
    if ops != [] {
      var next := Perform(b, ops[0]).0;
      PerformKeeps(b, ops[0]);
      WindowBound(next, ops[1..]);
      GainAdds(b.rate, Exec(b, ops).lastFill - next.lastFill, next.lastFill - b.lastFill);
    }
  }

  // ---------------------------------------------------------------------
  // No token is lost
  // ---------------------------------------------------------------------

  /** The tokens that would flow in by `at`. */
  function Inflow(b: Level, at: int): real {
    if b.lastFill < at then (at - b.lastFill) as real / 1_000_000_000.0 * b.rate else 0.0
  }

  /** What an operation finds running over the brim. */
  function Overflow(b: Level, op: Op): real {
    if (op.Allow? && op.n <= 0) || b.tokens + Inflow(b, op.at) <= b.burst as real then 0.0
    else b.tokens + Inflow(b, op.at) - b.burst as real
  }

  function Spilled(b: Level, ops: seq<Op>): real
    decreases |ops|
  {
    if ops == [] then 0.0 else Overflow(b, ops[0]) + Spilled(Perform(b, ops[0]).0, ops[1..])
  }

  lemma PerformAccounts(b: Level, op: Op)
    requires Valid(b)
    ensures var after := Perform(b, op).0;
            && after.lastFill == (if (op.Allow? && op.n <= 0) || op.at <= b.lastFill then b.lastFill else op.at)
            && Grant(b, op) as real + after.tokens + Overflow(b, op)
               == b.tokens + Gain(b.rate, after.lastFill - b.lastFill)
  {
    assert Gain(b.rate, 0) == 0.0;
    assert SECOND as real == 1_000_000_000.0;
    if b.lastFill < op.at {
      assert Inflow(b, op.at) == Gain(b.rate, op.at - b.lastFill);
    }
  }

  /** Over any run what is granted, what is left and what ran over the brim add up to
      what there was and what flowed in; nothing runs over but out of a full bucket. */
  lemma {:induction false} TokensAreConserved(b: Level, ops: seq<Op>)
    requires Valid(b)
    ensures var after := Exec(b, ops);
            Granted(b, ops) as real + after.tokens + Spilled(b, ops)
            == b.tokens + Gain(b.rate, after.lastFill - b.lastFill)
    ensures 0.0 <= Spilled(b, ops)
    ensures 0.0 < Spilled(b, ops) ==> WasFull(b, ops)
    decreases |ops|
  {
    if ops == [] {
      assert Gain(b.rate, 0) == 0.0;
    } else {
      var next := Perform(b, ops[0]).0;
      PerformKeeps(b, ops[0]);
      PerformAccounts(b, ops[0]);
      TokensAreConserved(next, ops[1..]);
      GainAdds(b.rate, Exec(b, ops).lastFill - next.lastFill, next.lastFill - b.lastFill);
    }
  }

  /** Some call of the run found the bucket with all the tokens it can hold. */
  predicate WasFull(b: Level, ops: seq<Op>)
    decreases |ops|
  {
    ops != [] && (b.tokens + Inflow(b, ops[0].at) >= b.burst as real || WasFull(Perform(b, ops[0]).0, ops[1..]))
  }

  /** The level a call finds at `at`. */
  function Found(b: Level, at: int): real {
    if b.tokens + Inflow(b, at) > b.burst as real then b.burst as real else b.tokens + Inflow(b, at)
  }

  lemma RefillFinds(b: Level, at: int)
    requires Valid(b)
    ensures Refill(b, at) == b.(tokens := Found(b, at), lastFill := if b.lastFill < at then at else b.lastFill)
  {
    assert SECOND as real == 1_000_000_000.0;
    assert Inflow(b, at) == if b.lastFill < at then Gain(b.rate, at - b.lastFill) else 0.0;
  }

  /** An AllowN is granted exactly when the level it finds is at least `n`, and takes
      `n` from it and no more; Tokens answers with the level. */
  lemma AllowedIff(b: Level, n: int, at: int)
    requires Valid(b) && 0 < n
    ensures var found := Found(b, at);
            && (Perform(b, Allow(n, at)).1 == Allowed(true) <==> n as real <= found)
            && (Perform(b, Allow(n, at)).1 == Allowed(false) <==> found < n as real)
            && Perform(b, Allow(n, at)).0.tokens == (if n as real <= found then found - n as real else found)
            && Perform(b, Peek(at)).1 == Available(found)
  {
    RefillFinds(b, at);
  }

  /** `k` single-token calls at one instant. */
  function Singles(k: nat, at: int): (ops: seq<Op>)
    ensures |ops| == k
  {
    if k == 0 then [] else [Allow(1, at)] + Singles(k - 1, at)
  }

  /** At one instant single tokens are granted as long as there is a whole one: of a
      full bucket, `burst` calls. */
  lemma {:induction false} WholeTokensAreGranted(b: Level, k: nat, at: int)
    requires Valid(b) && at <= b.lastFill
    ensures |Answers(b, Singles(k, at))| == k
    ensures forall j :: 0 <= j < k ==> Answers(b, Singles(k, at))[j] == Allowed((j + 1) as real <= b.tokens)
    ensures Granted(b, Singles(k, at)) == if k as real <= b.tokens then k else b.tokens.Floor
    decreases k
  {
    if k != 0 {
      var next := Perform(b, Allow(1, at)).0;
      AllowedIff(b, 1, at);
      PerformKeeps(b, Allow(1, at));
      assert Singles(k, at)[1..] == Singles(k - 1, at);
      WholeTokensAreGranted(next, k - 1, at);
      forall j | 0 <= j < k ensures Answers(b, Singles(k, at))[j] == Allowed((j + 1) as real <= b.tokens) {
        if 0 < j {
          assert Answers(b, Singles(k, at))[j] == Answers(next, Singles(k - 1, at))[j - 1];
        }
      }
    }
  }

  /** A new bucket grants `burst` tokens at once and no more. */
  lemma FullBucketGrantsBurst(rate: real, burst: nat, now: int, k: nat)
    requires 0.0 < rate && 1 <= burst
    ensures Granted(Level(rate, burst, burst as real, now), Singles(k, now)) == if k <= burst then k else burst
  {
    WholeTokensAreGranted(Level(rate, burst, burst as real, now), k, now);
  }

  // ---------------------------------------------------------------------
  // Asking without getting leaves no trace
  // ---------------------------------------------------------------------

  lemma RefillTwice(b: Level, early: int, late: int)
    requires Valid(b) && early <= late
    ensures Refill(Refill(b, early), late) == Refill(b, late)
  {
    if b.lastFill < early < late {
      GainAdds(b.rate, early - b.lastFill, late - early);
      GainGrows(b.rate, 0, late - early);
      GainGrows(b.rate, 0, early - b.lastFill);
    }
  }

  lemma {:induction false} RefillIsInvisible(b: Level, at: int, later: seq<Op>)
    requires Valid(b) && forall k :: 0 <= k < |later| ==> at <= later[k].at
    ensures Answers(Refill(b, at), later) == Answers(b, later)
    decreases |later|
  {
    if later != [] {
      RefillTwice(b, at, later[0].at);
      if later[0].Allow? && later[0].n <= 0 {
        RefillIsInvisible(b, at, later[1..]);
      }
    }
  }

  /** On a clock that does not step back, a refused AllowN and a Tokens call
      change none of the answers that come after them. */
  lemma ProbesAreInvisible(b: Level, probe: Op, later: seq<Op>)
    requires Valid(b)
    requires probe.Peek? || Perform(b, probe).1 == Allowed(false)
    requires forall k :: 0 <= k < |later| ==> probe.at <= later[k].at
    ensures Answers(Perform(b, probe).0, later) == Answers(b, later)
  {
    RefillIsInvisible(b, probe.at, later);
  }

  /** The clock matters: a probe can be noticed by a call that reads an earlier time. */
  lemma ProbeSeenByEarlierClock()
    ensures var b := Level(1.0, 1, 0.0, 0);
            && Valid(b)
            && Answers(b, [Allow(1, 0)]) == [Allowed(false)]
            && Answers(Perform(b, Peek(SECOND)).0, [Allow(1, 0)]) == [Allowed(true)]
  {
    var b := Level(1.0, 1, 0.0, 0);
    assert Gain(1.0, SECOND) == 1.0;
    assert Perform(b, Allow(1, 0)).1 == Allowed(false);
    assert Perform(Perform(b, Peek(SECOND)).0, Allow(1, 0)).1 == Allowed(true);
  }

  lemma GainPositive(rate: real, ns: int)
    requires 0.0 < rate && 0 < ns
    ensures 0.0 < Gain(rate, ns)
  {
    assert 0.0 < ns as real / SECOND as real;
  }

  lemma OneAnswer(b: Level, op: Op)
    ensures Answers(b, [op]) == [Perform(b, op).1]
  {
    assert [op][1..] == [];
  }

  lemma OneThenOne(b: Level, first: Op, second: Op)
    ensures Answers(b, [first, second]) == [Perform(b, first).1, Perform(Perform(b, first).0, second).1]
  {
    assert [first, second][1..] == [second];
    OneAnswer(Perform(b, first).0, second);
  }

  /** A refill ahead of `lastFill` shows in the level, or else, the bucket being
      full, once it has been emptied at the earlier time. */
  lemma RefillShows(b: Level, at: int) returns (later: seq<Op>)
    requires Valid(b) && b.lastFill < at
    ensures Answers(Refill(b, at), later) != Answers(b, later)
  {
    var r := Refill(b, at);
    GainPositive(b.rate, at - b.lastFill);
    if b.tokens < b.burst as real {
      later := [Peek(b.lastFill)];
      OneAnswer(b, later[0]);
      OneAnswer(r, later[0]);
      assert b.tokens < r.tokens;
    } else {
      later := [Allow(b.burst, b.lastFill), Peek(at)];
      var emptied := b.(tokens := 0.0);
      OneThenOne(b, later[0], later[1]);
      OneThenOne(r, later[0], later[1]);
      assert Perform(b, later[0]).0 == emptied && Perform(r, later[0]).0 == emptied.(lastFill := at);
      assert 0.0 < Refill(emptied, at).tokens;
    }
  }

  ghost predicate LeavesNoTrace(b: Level, probe: Op) {
    forall later :: Answers(Perform(b, probe).0, later) == Answers(b, later)
  }

  /** On any clock a Tokens call, or an AllowN that is refused, goes unnoticed by
      whatever comes after it exactly when it does not read a time ahead of `lastFill`. */
  lemma NoTraceIff(b: Level, probe: Op)
    requires Valid(b) && (probe.Peek? || Perform(b, probe).1 == Allowed(false))
    ensures LeavesNoTrace(b, probe) <==> probe.at <= b.lastFill
  {
    if b.lastFill < probe.at {
      var later := RefillShows(b, probe.at);
    }
  }

  // ---------------------------------------------------------------------
  // Waiting
  // ---------------------------------------------------------------------

  /** Less than the inflow of one nanosecond is missing. */
  predicate Nearly(b: Level, n: nat) {
    n as real - b.tokens < Gain(b.rate, 1)
  }

  lemma WaitCovers(b: Level, n: nat)
    requires Valid(b) && b.tokens < n as real
    ensures var w := Wait(b, n);
            if Nearly(b, n) then b.tokens + Gain(b.rate, w) >= n as real
            else b.tokens + Gain(b.rate, w) > n as real - Gain(b.rate, 1)
  {
    var need := n as real - b.tokens;
    var exact := need / b.rate * SECOND as real;
    assert Flow(b.rate, exact) == need;
    FlowOrder(b.rate, exact, 1.0);
    var w := exact.Floor;
    if Nearly(b, n) {
      assert exact < 1.0;
      GainGrows(b.rate, 1, MILLISECOND);
    } else {
      assert 1 <= w;
      FlowOrder(b.rate, exact, (w + 1) as real);
      GainAdds(b.rate, w, 1);
    }
  }

  lemma FlowOrder(rate: real, a: real, b: real)
    requires 0.0 < rate
    ensures a < b <==> Flow(rate, a) < Flow(rate, b)
  {
    var x, y := a / SECOND as real, b / SECOND as real;
    assert a < b <==> x < y;
    if x < y {
      assert (y - x) * rate > 0.0;
    } else {
      assert (x - y) * rate >= 0.0;
    }
  }

  /** The wait is no longer than it takes the missing tokens to flow in, to the
      nanosecond; if that is less than a nanosecond it is a millisecond. */
  lemma WaitIsExact(b: Level, n: nat)
    requires Valid(b) && b.tokens < n as real
    ensures var need, w := n as real - b.tokens, Wait(b, n);
            if Nearly(b, n) then w == 1_000_000
            else 1 <= w && Gain(b.rate, w) <= need < Gain(b.rate, w + 1)
  {
    var need := n as real - b.tokens;
    var exact := need / b.rate * SECOND as real;
    assert Flow(b.rate, exact) == need;
    FlowOrder(b.rate, exact, 1.0);
    FlowOrder(b.rate, exact, exact.Floor as real);
    FlowOrder(b.rate, exact, (exact.Floor + 1) as real);
    assert 0.0 < need / b.rate;
  }

  /** Sleeping at least the computed wait, with nobody else drawing tokens. */
  lemma SleepHelps(b: Level, n: nat, now: int, woke: int)
    requires Valid(b) && b.lastFill == now && b.tokens < n as real && n <= b.burst
    requires now + Wait(b, n) <= woke
    ensures Refill(b, woke).tokens >= n as real || Nearly(Refill(b, woke), n)
    ensures Nearly(b, n) ==> Refill(b, woke).tokens >= n as real
  {
    WaitCovers(b, n);
    GainGrows(b.rate, Wait(b, n), woke - now);
    GainGrows(b.rate, 0, 1);
    assert Gain(b.rate, 1) > 0.0;
  }

  datatype Outcome = Done | BurstExceeded | Cancelled

  class Bucket {
    const rate: real
    const burst: nat
    var tokens: real
    var lastFill: int

    ghost function View(): Level
      reads this
    {
      Level(rate, burst, tokens, lastFill)
    }

    constructor (rate: real, burst: nat, now: int)
      requires 0.0 < rate && 1 <= burst
      ensures Valid(View()) && View() == Level(rate, burst, burst as real, now)
    {
      this.rate, this.burst := rate, burst;
      tokens, lastFill := burst as real, now;
    }

    method RefillLocked(now: int)
      modifies this
      ensures View() == Refill(old(View()), now)
      ensures now <= old(lastFill) ==> tokens == old(tokens) && lastFill == old(lastFill)
      ensures old(lastFill) < now ==>
                var level := old(tokens) + (now - old(lastFill)) as real / 1_000_000_000.0 * rate;
                tokens == (if level > burst as real then burst as real else level) && lastFill == now
    {
      var elapsed := now - lastFill;
      if elapsed <= 0 { return; }
      tokens := tokens + elapsed as real / SECOND as real * rate;
      if tokens > burst as real {
        tokens := burst as real;
      }
      lastFill := now;
    }

    method AllowN(n: int, now: int) returns (ok: bool)
      modifies this
      ensures (View(), Allowed(ok)) == Perform(old(View()), Allow(n, now))
      ensures n <= 0 ==> ok && tokens == old(tokens) && lastFill == old(lastFill)
      ensures 0 < n && now <= old(lastFill) ==>
                && (ok <==> n as real <= old(tokens))
                && tokens == (if ok then old(tokens) - n as real else old(tokens)) && lastFill == old(lastFill)
      ensures 0 < n && old(lastFill) < now ==>
                var level := old(tokens) + (now - old(lastFill)) as real / 1_000_000_000.0 * rate;
                var found := if level > burst as real then burst as real else level;
                && (ok <==> n as real <= found)
                && tokens == (if ok then found - n as real else found) && lastFill == now
    {
      if n <= 0 { return true; }
      RefillLocked(now);
      if tokens >= n as real {
        tokens := tokens - n as real;
        return true;
      }
      return false;
    }

    method Tokens(now: int) returns (available: real)
      modifies this
      ensures (View(), Available(available)) == Perform(old(View()), Peek(now))
      ensures available == tokens
      ensures now <= old(lastFill) ==> tokens == old(tokens) && lastFill == old(lastFill)
      ensures old(lastFill) < now ==>
                var level := old(tokens) + (now - old(lastFill)) as real / 1_000_000_000.0 * rate;
                tokens == (if level > burst as real then burst as real else level) && lastFill == now
    {
      RefillLocked(now);
      available := tokens;
    }

    /** What WaitN does under the lock: take the tokens, or say how long to sleep. */
    method TakeOrWait(n: nat, now: int) returns (took: bool, wait: int)
      requires 0.0 < rate
      modifies this
      ensures took <==> Refill(old(View()), now).tokens >= n as real
      ensures took ==> View() == Refill(old(View()), now).(tokens := Refill(old(View()), now).tokens - n as real)
      ensures !took ==> View() == Refill(old(View()), now) && wait == Wait(View(), n)
    {
      RefillLocked(now);
      if tokens >= n as real {
        tokens := tokens - n as real;
        return true, 0;
      }
      var need := n as real - tokens;
      took, wait := false, (need / rate * SECOND as real).Floor;
      if wait <= 0 {
        wait := MILLISECOND;
      }
    }

    /** WaitN with nobody else drawing on the bucket. `late(k)` is how much the
        k-th timer oversleeps and `cancelled(k)` how long into the k-th sleep the
        context ends it, if it does. It takes at most two sleeps, despite the
        truncation of the wait to whole nanoseconds, and only then takes its
        tokens; cancelled, it leaves the bucket as if it had not been called. */
    method WaitN(n: int, start: int, late: nat -> nat, cancelled: nat -> Option<nat>)
      returns (r: Outcome, sleeps: nat, now: int)
      requires Valid(View()) && lastFill <= start
      modifies this
      ensures sleeps <= 2
      ensures r.BurstExceeded? <==> n > burst
      ensures r.Cancelled? ==> exists k :: 0 <= k < sleeps && cancelled(k).Some?
      ensures r.Done? ==> forall k :: 0 <= k < sleeps ==> cancelled(k).None?
      ensures (n <= 0 || n > burst) ==> View() == old(View()) && sleeps == 0
      ensures 0 < n <= burst && r.Done? ==>
                Perform(old(View()), Allow(n, now)) == (View(), Allowed(true))
      ensures 0 < n <= burst && r.Done? ==>
                tokens == Found(old(View()), now) - n as real && lastFill == now
      ensures r.Done? ==>
                now == start + (if sleeps == 0 then 0 else Wait(Refill(old(View()), start), n) + late(0))
                             + (if sleeps == 2 then 1_000_000 + late(1) else 0)
      ensures 0 < n <= burst ==> (sleeps == 0 <==> Refill(old(View()), start).tokens >= n as real)
      ensures r.Cancelled? ==>
                lastFill <= now && forall t :: lastFill <= t ==> Refill(View(), t) == Refill(old(View()), t)
    {
      sleeps, now := 0, start;
      if n <= 0 { return Done, 0, start; }
      if n > burst { return BurstExceeded, 0, start; }
      ghost var initial, first := View(), Wait(Refill(View(), start), n);
      while true
        invariant Valid(View()) && lastFill <= now && initial.lastFill <= now
        invariant View().rate == initial.rate
        invariant sleeps <= 2
        invariant now == start + (if sleeps == 0 then 0 else first + late(0))
                               + (if sleeps == 2 then 1_000_000 + late(1) else 0)
        invariant 0 < sleeps ==> Refill(initial, start).tokens < n as real
        invariant forall k :: 0 <= k < sleeps ==> cancelled(k).None?
        invariant forall t :: lastFill <= t ==> Refill(View(), t) == Refill(initial, t)
        invariant sleeps == 1 ==> Refill(View(), now).tokens >= n as real || Nearly(Refill(View(), now), n)
        invariant sleeps == 2 ==> Refill(View(), now).tokens >= n as real
        decreases 2 - sleeps
      {
        ghost var before := View();
        RefillKeeps(before, now);
        var took, wait := TakeOrWait(n, now);
        if took {
          RefillFinds(initial, now);
          return Done, sleeps, now;
        }
        forall t | lastFill <= t ensures Refill(View(), t) == Refill(initial, t) {
          RefillTwice(before, now, t);
        }
        if cancelled(sleeps).Some? {
          return Cancelled, sleeps + 1, now + cancelled(sleeps).value;
        }
        var woke := now + wait + late(sleeps);
        WaitIsExact(View(), n);
        SleepHelps(View(), n, now, woke);
        now := woke;
        sleeps := sleeps + 1;
      }
    }
  }
}
