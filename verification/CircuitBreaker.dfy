/** internal/circuitbreaker: the breaker's two critical sections, `allow` and
    `recordResult`, interleaved by any number of callers.

    Time is an integer read from the clock; `OnStateChange` is nil, so that
    `transition` does not drop the lock. An operation's outcome is an
    uninterpreted boolean, "counts as a failure".
 */
module CircuitBreaker {
  import opened Options
  import opened Counting

  datatype State = Closed | Open | HalfOpen

  /** The fields guarded by the mutex; threshold and cooldown are configuration. */
  datatype Core = Core(
    threshold: nat, cooldown: nat,
    state: State, failures: nat, openedAt: int,
    totalCalls: nat, totalFailures: nat, totalShortCirc: nat, transitions: nat)

  function New(threshold: int, cooldown: int): Core {
    Core(if threshold <= 0 then 5 else threshold,
         if cooldown <= 0 then 30_000_000_000 else cooldown,
         Closed, 0, 0, 0, 0, 0, 0)
  }

  function Transition(c: Core, to: State): Core {
    if c.state == to then c else c.(state := to, transitions := c.transitions + 1)
  }

  predicate Admits(c: Core, now: int) {
    match c.state
    case Closed => true
    case Open => now - c.openedAt >= c.cooldown
    case HalfOpen => false
  }

  function Allow(c: Core, now: int): Core {
    var counted := c.(totalCalls := c.totalCalls + 1);
    if c.state.Open? && Admits(c, now) then Transition(counted, HalfOpen) else counted
  }

  function Record(c: Core, failed: bool, now: int): Core {
    var counted := c.(totalFailures := c.totalFailures + if failed then 1 else 0);
    match c.state
    case Closed =>
      if !failed then counted.(failures := 0)
      else
        var more := counted.(failures := c.failures + 1);
        if more.failures >= c.threshold then Transition(more.(openedAt := now), Open) else more
    case HalfOpen =>
      if failed then Transition(counted.(openedAt := now), Open).(failures := c.threshold)
      else Transition(counted.(failures := 0), Closed)
    case Open => counted
  }

  function Cleared(c: Core): Core {
    Transition(c.(failures := 0, openedAt := 0), Closed)
  }

  class Breaker {
    const threshold: nat
    const cooldown: nat
    var state: State
    var failures: nat
    var openedAt: int
    var totalCalls: nat
    var totalFailures: nat
    var totalShortCirc: nat
    var transitions: nat

    ghost function View(): Core
      reads this
    {
      Core(threshold, cooldown, state, failures, openedAt,
           totalCalls, totalFailures, totalShortCirc, transitions)
    }

    constructor (threshold: int, cooldown: int)
      ensures View() == New(threshold, cooldown)
      ensures this.threshold == if threshold <= 0 then 5 else threshold
      ensures this.cooldown == if cooldown <= 0 then 30_000_000_000 else cooldown
      ensures state.Closed? && failures == openedAt == 0
      ensures totalCalls == totalFailures == totalShortCirc == transitions == 0
    {
      this.threshold := if threshold <= 0 then 5 else threshold;
      this.cooldown := if cooldown <= 0 then 30_000_000_000 else cooldown;
      state, failures, openedAt := Closed, 0, 0;
      totalCalls, totalFailures, totalShortCirc, transitions := 0, 0, 0, 0;
    }

    method MoveTo(to: State)
      modifies this
      ensures View() == Transition(old(View()), to)
    {
      if state == to { return; }
      state := to;
      transitions := transitions + 1;
    }

    method AllowCall(now: int) returns (ok: bool)
      modifies this
      ensures View() == Allow(old(View()), now)
      ensures ok <==> old(state).Closed? || (old(state).Open? && now - old(openedAt) >= cooldown)
      ensures state == if ok && old(state).Open? then HalfOpen else old(state)
      ensures totalCalls == old(totalCalls) + 1 && failures == old(failures) && openedAt == old(openedAt)
    {
      totalCalls := totalCalls + 1;
      match state
      case Closed => return true;
      case Open =>
        if now - openedAt < cooldown { return false; }
        MoveTo(HalfOpen);
        return true;
      case HalfOpen => return false;
    }

    method CountShortCircuit()
      modifies this
      ensures View() == old(View()).(totalShortCirc := old(totalShortCirc) + 1)
    {
      totalShortCirc := totalShortCirc + 1;
    }

    method RecordResult(failed: bool, now: int)
      modifies this
      ensures View() == Record(old(View()), failed, now)
      ensures old(state).HalfOpen? ==>
                if failed then state.Open? && openedAt == now && failures == threshold
                else state.Closed? && openedAt == old(openedAt) && failures == 0
      ensures old(state).Closed? ==>
                && failures == (if failed then old(failures) + 1 else 0)
                && state == (if failed && old(failures) + 1 >= threshold then Open else Closed)
                && openedAt == (if state.Open? then now else old(openedAt))
      ensures old(state).Open? ==> state.Open? && openedAt == old(openedAt) && failures == old(failures)
      ensures totalFailures == old(totalFailures) + (if failed then 1 else 0) && totalCalls == old(totalCalls)
    {
      if failed {
        totalFailures := totalFailures + 1;
      }
      match state {
        case Closed =>
          if !failed {
            failures := 0;
            return;
          }
          failures := failures + 1;
          if failures >= threshold {
            openedAt := now;
            MoveTo(Open);
          }
        case HalfOpen =>
          if failed {
            openedAt := now;
            MoveTo(Open);
            failures := threshold;
            return;
          }
          failures := 0;
          MoveTo(Closed);
        case Open =>
      }
    }

    method Reset()
      modifies this
      ensures View() == Cleared(old(View()))
      ensures state.Closed? && failures == openedAt == 0
      ensures totalCalls == old(totalCalls) && totalFailures == old(totalFailures)
    {
      failures := 0;
      openedAt := 0;
      MoveTo(Closed);
    }
  }

  // ---------------------------------------------------------------------
  // Any number of callers between allow and recordResult
  // ---------------------------------------------------------------------

  /** `episode` is the half-open episode a caller was admitted into, if any. */
  datatype Caller =
    | Turned                            // allow said no; about to count the short circuit
    | Refused                           // short circuit counted, ErrOpen returned
    | Running(episode: Option<nat>)     // op in flight
    | Reported(episode: Option<nat>, failed: bool)

  /** What makes the breaker change its state: a caller asks to be let in, a result
      is reported, or Reset is called. */
  datatype Cause = Asked | Told(failed: bool) | Forced

  /** One change of state, when it happened and why. */
  datatype Edge = Edge(from: State, to: State, at: int, why: Cause)

  /** `edges` is the whole history of state changes, `results` the outcomes
      recorded while closed since the breaker last closed or was reset, and
      `openers` the callers whose call made the breaker half-open, one per episode. */
  datatype Sys = Sys(core: Core, callers: seq<Caller>, edges: seq<Edge>, results: seq<bool>, openers: seq<nat>)

  datatype Event =
    | Call(now: int)
    | ShortCircuit(who: nat)
    | Report(who: nat, failed: bool, now: int)
    | ForceClosed(now: int)

  function Init(threshold: int, cooldown: int): Sys {
    Sys(New(threshold, cooldown), [], [], [], [])
  }

  function Log(edges: seq<Edge>, before: Core, after: Core, at: int, why: Cause): seq<Edge> {
    if before.state == after.state then edges
    else edges + [Edge(before.state, after.state, at, why)]
  }

  function Step(s: Sys, e: Event): Sys {
    match e
    case Call(now) =>
      var after := Allow(s.core, now);
      var openers := s.openers + if after.state.HalfOpen? && !s.core.state.HalfOpen? then [|s.callers|] else [];
      Sys(after,
          s.callers + [if !Admits(s.core, now) then Turned
                       else Running(if after.state.HalfOpen? && openers != [] then Some(|openers| - 1) else None)],
          Log(s.edges, s.core, after, now, Asked),
          s.results,
          openers)
    case ShortCircuit(i) =>
      if i < |s.callers| && s.callers[i].Turned? then
        s.(core := s.core.(totalShortCirc := s.core.totalShortCirc + 1), callers := s.callers[i := Refused])
      else s
    case Report(i, failed, now) =>
      if i < |s.callers| && s.callers[i].Running? then
        var after := Record(s.core, failed, now);
        Sys(after,
            s.callers[i := Reported(s.callers[i].episode, failed)],
            Log(s.edges, s.core, after, now, Told(failed)),
            if s.core.state.Closed? then s.results + [failed] else if after.state.Closed? then [] else s.results,
            s.openers)
      else s
    case ForceClosed(now) =>
      var after := Cleared(s.core);
      s.(core := after, edges := Log(s.edges, s.core, after, now, Forced), results := [])
  }

  function Exec(s: Sys, events: seq<Event>): Sys {
    if events == [] then s
    else Step(Exec(s, events[..|events| - 1]), events[|events| - 1])
  }

  // ---------------------------------------------------------------------
  // What every run keeps
  // ---------------------------------------------------------------------

  /** The length of the run of failures at the end of `results`. */
  function TrailingFailures(results: seq<bool>): nat {
    if results == [] || !results[|results| - 1] then 0
    else 1 + TrailingFailures(results[..|results| - 1])
  }

  predicate LegalEdge(e: Edge) {
    match e.why
    case Asked => e.from.Open? && e.to.HalfOpen?
    case Told(true) => !e.from.Open? && e.to.Open?
    case Told(false) => e.from.HalfOpen? && e.to.Closed?
    case Forced => !e.from.Closed? && e.to.Closed?
  }

  /** The history starts closed, each edge is legal and leaves the state the
      one before it entered, and the last one entered `last`. */
  ghost predicate Walk(edges: seq<Edge>, last: State) {
    if edges == [] then last == Closed
    else
      var e := edges[|edges| - 1];
      LegalEdge(e) && e.to == last && Walk(edges[..|edges| - 1], e.from)
  }

  /** Every probe came at least `cooldown` after the opening it follows. */
  ghost predicate CooldownKept(edges: seq<Edge>, cooldown: nat) {
    |edges| < 2
    || (&& (edges[|edges| - 1].to.HalfOpen? ==> edges[|edges| - 1].at - edges[|edges| - 2].at >= cooldown)
        && CooldownKept(edges[..|edges| - 1], cooldown))
  }

  function IsTurned(c: Caller): nat { if c.Turned? then 1 else 0 }
  function IsRefused(c: Caller): nat { if c.Refused? then 1 else 0 }
  function IsRunning(c: Caller): nat { if c.Running? then 1 else 0 }
  function IsReported(c: Caller): nat { if c.Reported? then 1 else 0 }
  function IsFailed(c: Caller): nat { if c.Reported? && c.failed then 1 else 0 }

  predicate Probes(c: Caller, episode: nat) {
    (c.Running? || c.Reported?) && c.episode == Some(episode)
  }

  ghost predicate Ledger(s: Sys) {
    && s.core.totalShortCirc == Total(s.callers, IsRefused)
    && s.core.totalFailures == Total(s.callers, IsFailed)
    && s.core.totalCalls == s.core.totalShortCirc + Total(s.callers, IsTurned)
                            + Total(s.callers, IsRunning) + Total(s.callers, IsReported)
  }

  ghost predicate History(s: Sys) {
    && Walk(s.edges, s.core.state)
    && |s.edges| == s.core.transitions
    && CooldownKept(s.edges, s.core.cooldown)
    && (s.core.state.Open? ==> s.edges != [] && s.core.openedAt == s.edges[|s.edges| - 1].at)
  }

  ghost predicate Failures(s: Sys) {
    && 1 <= s.core.threshold
    && if s.core.state.Closed? then s.core.failures == TrailingFailures(s.results) < s.core.threshold
       else s.core.failures == s.core.threshold
  }

  /** Each half-open episode so far admitted its opener and nobody else. */
  ghost predicate OneProbe(s: Sys) {
    && (forall k: nat :: k < |s.openers| ==> s.openers[k] < |s.callers| && Probes(s.callers[s.openers[k]], k))
    && (forall i: nat, k: nat {:trigger Probes(s.callers[i], k)} ::
          i < |s.callers| && Probes(s.callers[i], k) ==> k < |s.openers| && s.openers[k] == i)
  }

  ghost predicate Inv(s: Sys) {
    Ledger(s) && History(s) && Failures(s) && OneProbe(s)
  }

  lemma CountedReport(s: Sys, i: nat, failed: bool, now: int)
    requires Ledger(s) && i < |s.callers| && s.callers[i].Running?
    ensures Ledger(Step(s, Report(i, failed, now)))
  {
    Becomes(s.callers, i, Reported(s.callers[i].episode, failed));
  }

  lemma CountedCall(s: Sys, now: int)
    requires Ledger(s)
    ensures Ledger(Step(s, Call(now)))
  {
    Joins(s.callers, Step(s, Call(now)).callers[|s.callers|]);
  }

  lemma CountedRefusal(s: Sys, i: nat)
    requires Ledger(s) && i < |s.callers| && s.callers[i].Turned?
    ensures Ledger(Step(s, ShortCircuit(i)))
  {
    Becomes(s.callers, i, Refused);
  }

  lemma Counted(s: Sys, e: Event)
    requires Ledger(s)
    ensures Ledger(Step(s, e))
  {
    match e
    case Call(now) => CountedCall(s, now);
    case ShortCircuit(i) => if i < |s.callers| && s.callers[i].Turned? { CountedRefusal(s, i); }
    case Report(i, failed, now) =>
      if i < |s.callers| && s.callers[i].Running? {
        CountedReport(s, i, failed, now);
      }
    case ForceClosed(_) =>
  }

  lemma Joins(cs: seq<Caller>, c: Caller)
    ensures Total(cs + [c], IsTurned) == Total(cs, IsTurned) + IsTurned(c)
    ensures Total(cs + [c], IsRefused) == Total(cs, IsRefused) + IsRefused(c)
    ensures Total(cs + [c], IsRunning) == Total(cs, IsRunning) + IsRunning(c)
    ensures Total(cs + [c], IsReported) == Total(cs, IsReported) + IsReported(c)
    ensures Total(cs + [c], IsFailed) == Total(cs, IsFailed) + IsFailed(c)
  {
    Append(cs, c, IsTurned);
    Append(cs, c, IsRefused);
    Append(cs, c, IsRunning);
    Append(cs, c, IsReported);
    Append(cs, c, IsFailed);
  }

  lemma Becomes(cs: seq<Caller>, i: nat, c: Caller)
    requires i < |cs|
    ensures Total(cs[i := c], IsTurned) + IsTurned(cs[i]) == Total(cs, IsTurned) + IsTurned(c)
    ensures Total(cs[i := c], IsRefused) + IsRefused(cs[i]) == Total(cs, IsRefused) + IsRefused(c)
    ensures Total(cs[i := c], IsRunning) + IsRunning(cs[i]) == Total(cs, IsRunning) + IsRunning(c)
    ensures Total(cs[i := c], IsReported) + IsReported(cs[i]) == Total(cs, IsReported) + IsReported(c)
    ensures Total(cs[i := c], IsFailed) + IsFailed(cs[i]) == Total(cs, IsFailed) + IsFailed(c)
  {
    Update(cs, i, c, IsTurned);
    Update(cs, i, c, IsRefused);
    Update(cs, i, c, IsRunning);
    Update(cs, i, c, IsReported);
    Update(cs, i, c, IsFailed);
  }

  lemma FailuresKept(s: Sys, e: Event)
    requires Failures(s)
    ensures Failures(Step(s, e))
  {
    if e.Report? {
      assert (s.results + [e.failed])[..|s.results|] == s.results;
    }
  }

  lemma Logged(edges: seq<Edge>, e: Edge, cooldown: nat)
    requires Walk(edges, e.from) && LegalEdge(e) && CooldownKept(edges, cooldown)
    requires e.to.HalfOpen? ==> edges == [] || e.at - edges[|edges| - 1].at >= cooldown
    ensures Walk(edges + [e], e.to) && CooldownKept(edges + [e], cooldown)
  {
    assert (edges + [e])[..|edges|] == edges;
  }

  /** What a change of state owes the history. */
  predicate Accounted(before: Core, after: Core, at: int, why: Cause) {
    && after.cooldown == before.cooldown
    && if after.state == before.state then
         after.transitions == before.transitions && (after.state.Open? ==> after.openedAt == before.openedAt)
       else
         && after.transitions == before.transitions + 1 && LegalEdge(Edge(before.state, after.state, at, why))
         && (after.state.Open? ==> after.openedAt == at)
         && (after.state.HalfOpen? ==> before.state.Open? && at - before.openedAt >= before.cooldown)
  }

  lemma HistoryGrows(s: Sys, t: Sys, at: int, why: Cause)
    requires History(s) && Accounted(s.core, t.core, at, why)
    requires t.edges == Log(s.edges, s.core, t.core, at, why)
    ensures History(t)
  {
    if t.core.state != s.core.state {
      Logged(s.edges, Edge(s.core.state, t.core.state, at, why), s.core.cooldown);
    }
  }

  lemma HistoryKept(s: Sys, e: Event)
    requires History(s)
    ensures History(Step(s, e))
  {
    var t := Step(s, e);
    match e
    case Call(now) => HistoryGrows(s, t, now, Asked);
    case ShortCircuit(_) =>
    case Report(_, failed, now) => HistoryGrows(s, t, now, Told(failed));
    case ForceClosed(now) => HistoryGrows(s, t, now, Forced);
  }

  /** A caller joins outside every episode. */
  lemma JoinsOutside(s: Sys, t: Sys, c: Caller)
    requires OneProbe(s) && t.callers == s.callers + [c] && t.openers == s.openers
    requires forall k: nat :: !Probes(c, k)
    ensures OneProbe(t)
  {
    forall i: nat, k: nat | i < |t.callers| && Probes(t.callers[i], k) ensures k < |t.openers| && t.openers[k] == i {
      assert i < |s.callers| && t.callers[i] == s.callers[i];
    }
  }

  /** The caller that opens an episode is admitted under its number. */
  lemma JoinsAsOpener(s: Sys, t: Sys)
    requires OneProbe(s) && t.openers == s.openers + [|s.callers|]
    requires t.callers == s.callers + [Running(Some(|s.openers|))]
    ensures OneProbe(t)
  {
    forall i: nat, k: nat | i < |t.callers| && Probes(t.callers[i], k) ensures k < |t.openers| && t.openers[k] == i {
      if i < |s.callers| {
        assert Probes(s.callers[i], k);
      }
    }
    forall k: nat | k < |t.openers| ensures t.openers[k] < |t.callers| && Probes(t.callers[t.openers[k]], k) {
      if k < |s.openers| {
        assert t.callers[s.openers[k]] == s.callers[s.openers[k]];
      }
    }
  }

  lemma AdmittedCall(s: Sys, now: int)
    requires OneProbe(s)
    ensures OneProbe(Step(s, Call(now)))
  {
    var t := Step(s, Call(now));
    if t.core.state.HalfOpen? && !s.core.state.HalfOpen? {
      JoinsAsOpener(s, t);
    } else {
      JoinsOutside(s, t, t.callers[|s.callers|]);
    }
  }

  /** Nobody joins an episode or leaves it. */
  lemma AdmittedSame(s: Sys, t: Sys)
    requires OneProbe(s) && t.openers == s.openers && |t.callers| == |s.callers|
    requires forall i: nat, k: nat ::
               i < |s.callers| ==> (Probes(t.callers[i], k) <==> Probes(s.callers[i], k))
    ensures OneProbe(t)
  {
  }

  lemma Admitted(s: Sys, e: Event)
    requires OneProbe(s)
    ensures OneProbe(Step(s, e))
  {
    if e.Call? {
      AdmittedCall(s, e.now);
    } else {
      AdmittedSame(s, Step(s, e));
    }
  }

  lemma StepKeepsInv(s: Sys, e: Event)
    requires Inv(s)
    ensures Inv(Step(s, e))
  {
    Counted(s, e);
    FailuresKept(s, e);
    HistoryKept(s, e);
    Admitted(s, e);
  }

  lemma ConfigurationIsFixed(s: Sys, e: Event)
    ensures Step(s, e).core.cooldown == s.core.cooldown && Step(s, e).core.threshold == s.core.threshold
  {
  }

  lemma {:induction false} Reachable(threshold: int, cooldown: int, events: seq<Event>)
    ensures Inv(Exec(Init(threshold, cooldown), events))
    ensures var c := Exec(Init(threshold, cooldown), events).core;
            && c.cooldown == (if cooldown <= 0 then 30_000_000_000 else cooldown)
            && c.threshold == (if threshold <= 0 then 5 else threshold)
  {
    if events != [] {
      Reachable(threshold, cooldown, events[..|events| - 1]);
      StepKeepsInv(Exec(Init(threshold, cooldown), events[..|events| - 1]), events[|events| - 1]);
      ConfigurationIsFixed(Exec(Init(threshold, cooldown), events[..|events| - 1]), events[|events| - 1]);
    }
  }

  /** The state history of any run is a walk on the breaker's graph with one step per
      counted transition, and every probe waits out the cooldown. A failure opens the
      breaker from either other state, a success closes it from half-open alone. */
  lemma HistoryIsAWalk(threshold: int, cooldown: int, events: seq<Event>)
    ensures var s := Exec(Init(threshold, cooldown), events);
            && Walk(s.edges, s.core.state)
            && |s.edges| == s.core.transitions
            && CooldownKept(s.edges, if cooldown <= 0 then 30_000_000_000 else cooldown)
  {
    Reachable(threshold, cooldown, events);
  }

  /** While closed, `failures` is the current run of consecutive failures and
      has not reached the threshold; otherwise it sits at the threshold. */
  lemma FailuresAreConsecutive(threshold: int, cooldown: int, events: seq<Event>)
    ensures var s := Exec(Init(threshold, cooldown), events);
            if s.core.state.Closed? then s.core.failures == TrailingFailures(s.results) < s.core.threshold
            else s.core.failures == s.core.threshold
  {
    Reachable(threshold, cooldown, events);
  }

  /** What a report does, in any run: it ends a half-open episode as the report says,
      opens a closed breaker with the failure that completes a run of `threshold`, and
      moves an open one not at all. */
  lemma ReportDecides(threshold: int, cooldown: int, before: seq<Event>, i: nat, failed: bool, now: int)
    requires i < |Exec(Init(threshold, cooldown), before).callers|
    requires Exec(Init(threshold, cooldown), before).callers[i].Running?
    ensures var s := Exec(Init(threshold, cooldown), before);
            var t := Step(s, Report(i, failed, now));
            var limit := if threshold <= 0 then 5 else threshold;
            && (s.core.state.HalfOpen? ==>
                  if failed then t.core.state.Open? && t.core.openedAt == now && t.core.failures == limit
                  else t.core.state.Closed? && t.core.failures == 0)
            && (s.core.state.Closed? ==>
                  if failed && TrailingFailures(s.results) + 1 == limit
                  then t.core.state.Open? && t.core.openedAt == now && t.core.failures == limit
                  else t.core.state.Closed?
                       && t.core.failures == if failed then TrailingFailures(s.results) + 1 else 0)
            && (s.core.state.Open? ==>
                  t.core.state.Open? && t.core.openedAt == s.core.openedAt && t.core.failures == limit)
            && t.callers == s.callers[i := Reported(s.callers[i].episode, failed)]
            && t.core.totalFailures == s.core.totalFailures + if failed then 1 else 0
  {
    Reachable(threshold, cooldown, before);
  }

  /** Whom the breaker lets in, in any run: everybody while it is closed, nobody while
      a probe is out, and while it is open the first to ask at least the cooldown after
      the change that opened it. */
  lemma CallDecides(threshold: int, cooldown: int, before: seq<Event>, now: int)
    ensures var s := Exec(Init(threshold, cooldown), before);
            var t := Step(s, Call(now));
            var pause := if cooldown <= 0 then 30_000_000_000 else cooldown;
            && |t.callers| == |s.callers| + 1 && t.callers[..|s.callers|] == s.callers
            && t.core.totalCalls == s.core.totalCalls + 1
            && (s.core.state.Closed? ==> t.core.state.Closed? && t.callers[|s.callers|] == Running(None))
            && (s.core.state.HalfOpen? ==> t.core.state.HalfOpen? && t.callers[|s.callers|] == Turned)
            && (s.core.state.Open? ==>
                  && s.edges != [] && s.edges[|s.edges| - 1].to.Open?
                  && if now - s.edges[|s.edges| - 1].at >= pause
                     then t.core.state.HalfOpen? && t.callers[|s.callers|] == Running(Some(|s.openers|))
                     else t.core.state.Open? && t.callers[|s.callers|] == Turned)
  {
    Reachable(threshold, cooldown, before);
  }

  /** A caller turned away counts its short circuit once, whatever else goes on. */
  lemma RefusalCounts(s: Sys, i: nat)
    requires i < |s.callers|
    ensures var t := Step(s, ShortCircuit(i));
            if s.callers[i].Turned?
            then && t.core == s.core.(totalShortCirc := s.core.totalShortCirc + 1)
                 && t.callers == s.callers[i := Refused] && Step(t, ShortCircuit(i)) == t
            else t == s
  {
  }

  /** Reset closes the breaker from any state and forgets the failures, so that only a
      full run of them opens it again. */
  lemma ResetForgets(threshold: int, cooldown: int, before: seq<Event>, now: int)
    ensures var s := Exec(Init(threshold, cooldown), before);
            var t := Step(s, ForceClosed(now));
            && t.core.state.Closed? && t.core.failures == t.core.openedAt == TrailingFailures(t.results) == 0
            && t.callers == s.callers && t.core.totalCalls == s.core.totalCalls
  {
  }

  /** Each half-open episode admitted exactly one caller. */
  lemma OneCallerPerEpisode(threshold: int, cooldown: int, events: seq<Event>, episode: nat)
    requires episode < |Exec(Init(threshold, cooldown), events).openers|
    ensures var s := Exec(Init(threshold, cooldown), events);
            && s.openers[episode] < |s.callers|
            && forall i: nat :: i < |s.callers| ==> (Probes(s.callers[i], episode) <==> i == s.openers[episode])
  {
    Reachable(threshold, cooldown, events);
  }

  /** Every call is accounted for exactly once. */
  lemma CallsAreConserved(threshold: int, cooldown: int, events: seq<Event>)
    ensures var s := Exec(Init(threshold, cooldown), events);
            && s.core.totalShortCirc == Total(s.callers, IsRefused)
            && s.core.totalFailures == Total(s.callers, IsFailed) <= Total(s.callers, IsReported)
            && s.core.totalCalls == s.core.totalShortCirc + Total(s.callers, IsTurned)
                                    + Total(s.callers, IsRunning) + Total(s.callers, IsReported)
  {
    Reachable(threshold, cooldown, events);
    Dominated(Exec(Init(threshold, cooldown), events).callers, IsFailed, IsReported);
  }

  // ---------------------------------------------------------------------
  // Who decides an episode
  // ---------------------------------------------------------------------

  predicate IsProbe(s: Sys, who: nat) {
    s.openers != [] && who == s.openers[|s.openers| - 1]
  }

  /** Nobody but the probe of the present half-open episode has a result to report. */
  ghost predicate Alone(s: Sys) {
    forall i: nat :: i < |s.callers| && s.callers[i].Running? ==>
      s.core.state.HalfOpen? && IsProbe(s, i)
  }

  /** The run does not enter Closed, not even on the way. */
  ghost predicate NeverCloses(s: Sys, events: seq<Event>) {
    events == [] || (NeverCloses(s, events[..|events| - 1]) && !Exec(s, events).core.state.Closed?)
  }

  /** Until the breaker next closes, whatever happens, no report reaches it while
      it is open and only the probe's own reaches it while it is half-open. */
  ghost predicate OnlyProbesReport(s: Sys) {
    forall events :: NeverCloses(s, events) ==> Alone(Exec(s, events))
  }

  predicate Ends(s: Sys, report: Event) {
    report.Report? && s.core.state.HalfOpen? && !Step(s, report).core.state.HalfOpen?
  }

  /** Until the breaker next closes, an episode is ended by the report of its own
      probe and by no other. */
  ghost predicate ProbesDecide(s: Sys) {
    forall events, report ::
      NeverCloses(s, events) && Ends(Exec(s, events), report) ==> IsProbe(Exec(s, events), report.who)
  }

  lemma StaysAlone(s: Sys, e: Event)
    requires Alone(s) && !s.core.state.Closed? && !Step(s, e).core.state.Closed?
    ensures Alone(Step(s, e))
  {
  }

  lemma {:induction false} AloneUntilClosed(s: Sys, events: seq<Event>)
    requires Alone(s) && !s.core.state.Closed? && NeverCloses(s, events)
    ensures Alone(Exec(s, events)) && !Exec(s, events).core.state.Closed?
  {
    if events != [] {
      AloneUntilClosed(s, events[..|events| - 1]);
      StaysAlone(Exec(s, events[..|events| - 1]), events[|events| - 1]);
    }
  }

  lemma OneEvent(s: Sys, e: Event)
    ensures Exec(s, [e]) == Step(s, e)
    ensures !Step(s, e).core.state.Closed? ==> NeverCloses(s, [e])
  {
    Unroll(s, [], e);
    assert [] + [e] == [e] && [e][..0] == [];
    assert NeverCloses(s, []);
  }

  /** A call after the cooldown is a probe. */
  lemma ProbeEnters(s: Sys, i: nat)
    requires s.core.state.Open? && i < |s.callers| && s.callers[i].Running?
    ensures var t := Step(s, Call(s.core.openedAt + s.core.cooldown));
            && t.core.state.HalfOpen? && |t.callers| == |s.callers| + 1 && t.callers[i] == s.callers[i]
            && t.callers[|s.callers|].Running? && IsProbe(t, |s.callers|)
  {
  }

  lemma SuccessCloses(s: Sys, i: nat, probe: nat, now: int)
    requires s.core.state.HalfOpen? && i < |s.callers| && s.callers[i].Running?
    requires i != probe < |s.callers| && s.callers[probe].Running?
    ensures var t := Step(s, Report(i, false, now));
            t.core.state.Closed? && |t.callers| == |s.callers| && t.callers[probe].Running?
  {
  }

  /** A caller still in flight when the breaker has opened can be overtaken by a
      probe and then close the breaker in its place. */
  lemma LatecomerCloses(s: Sys, i: nat) returns (probe: Event, report: Event)
    requires s.core.state.Open? && i < |s.callers| && s.callers[i].Running?
    ensures report.Report? && report.who == i
    ensures var probing := Exec(s, [probe]);
            && NeverCloses(s, [probe]) && probing.core.state.HalfOpen?
            && !IsProbe(probing, i) && !Alone(probing) && Ends(probing, report)
            && Step(probing, report).core.state.Closed?
            && |s.callers| < |Step(probing, report).callers|
            && IsProbe(probing, |s.callers|) && Step(probing, report).callers[|s.callers|].Running?
  {
    var at := s.core.openedAt + s.core.cooldown;
    probe, report := Call(at), Report(i, false, at);
    var probing := Step(s, probe);
    OneEvent(s, probe);
    ProbeEnters(s, i);
    SuccessCloses(probing, i, |s.callers|, at);
  }

  lemma NobodyRunningIff(s: Sys)
    ensures Total(s.callers, IsRunning) == 0 <==> forall i: nat :: i < |s.callers| ==> !s.callers[i].Running?
  {
    if Total(s.callers, IsRunning) == 0 {
      forall i: nat | i < |s.callers| ensures !s.callers[i].Running? {
        AtLeast(s.callers, i, IsRunning);
      }
    } else {
      var i := Witness(s.callers, IsRunning);
    }
  }

  /** From an open breaker, the probes alone decide until it closes, and no report
      finds it open, exactly when no earlier caller is still in flight. */
  lemma ProbesDecideIff(threshold: int, cooldown: int, before: seq<Event>)
    requires Exec(Init(threshold, cooldown), before).core.state.Open?
    ensures var s := Exec(Init(threshold, cooldown), before);
            && (OnlyProbesReport(s) <==> Total(s.callers, IsRunning) == 0)
            && (ProbesDecide(s) <==> Total(s.callers, IsRunning) == 0)
  {
    var s := Exec(Init(threshold, cooldown), before);
    NobodyRunningIff(s);
    if Total(s.callers, IsRunning) == 0 {
      forall events | NeverCloses(s, events) ensures Alone(Exec(s, events)) {
        AloneUntilClosed(s, events);
      }
    } else {
      var i := Witness(s.callers, IsRunning);
      var probe, report := LatecomerCloses(s, i);
      assert !IsProbe(Exec(s, [probe]), report.who);
    }
  }

  const TRIPPING: seq<Event> := [Call(0), Call(0), Call(0), Report(0, true, 5)]

  /** A closed breaker with these callers. */
  function Entered(callers: seq<Caller>): Sys {
    Sys(New(1, 10).(totalCalls := |callers|), callers, [], [], [])
  }

  lemma OneEnters(callers: seq<Caller>)
    ensures Step(Entered(callers), Call(0)) == Entered(callers + [Running(None)])
  {
  }

  lemma ThreeEnter()
    ensures Exec(Init(1, 10), [Call(0), Call(0), Call(0)]) == Entered([Running(None), Running(None), Running(None)])
  {
    Unroll(Init(1, 10), [], Call(0));
    OneEnters([]);
    assert [] + [Call(0)] == [Call(0)] && [] + [Running(None)] == [Running(None)];
    Unroll(Init(1, 10), [Call(0)], Call(0));
    OneEnters([Running(None)]);
    assert [Call(0)] + [Call(0)] == [Call(0), Call(0)];
    assert [Running(None)] + [Running(None)] == [Running(None), Running(None)];
    Unroll(Init(1, 10), [Call(0), Call(0)], Call(0));
    OneEnters([Running(None), Running(None)]);
    assert [Call(0), Call(0)] + [Call(0)] == [Call(0), Call(0), Call(0)];
    assert [Running(None), Running(None)] + [Running(None)] == [Running(None), Running(None), Running(None)];
  }

  lemma OneTrips()
    ensures var tripped := Exec(Init(1, 10), TRIPPING);
            && tripped.core.state.Open? && tripped.core.openedAt == 5 && tripped.openers == []
            && tripped.core.threshold == 1 && tripped.core.cooldown == 10
            && tripped.callers == [Reported(None, true), Running(None), Running(None)]
  {
    ThreeEnter();
    Unroll(Init(1, 10), [Call(0), Call(0), Call(0)], Report(0, true, 5));
    assert [Call(0), Call(0), Call(0)] + [Report(0, true, 5)] == TRIPPING;
  }

  /** The breaker is not ruled by the probe alone: of three callers admitted while
      it was closed, one trips it, one reports while it is open, and one reports
      while the probe is in flight and closes it. */
  lemma LateReportDecides()
    ensures var tripped := Exec(Init(1, 10), TRIPPING);
            var late := Step(tripped, Report(2, true, 6));
            var probing := Step(late, Call(15));
            var after := Step(probing, Report(1, false, 16));
            && tripped.core.state.Open?
            && late.core.state.Open? && late.callers == [Reported(None, true), Running(None), Reported(None, true)]
            && probing.core.state.HalfOpen? && probing.callers == late.callers + [Running(Some(0))]
            && after.core.state.Closed?
            && after.callers == [Reported(None, true), Reported(None, false), Reported(None, true), Running(Some(0))]
  {
    OneTrips();
  }

  lemma Unroll(s: Sys, events: seq<Event>, e: Event)
    ensures Exec(s, events + [e]) == Step(Exec(s, events), e)
  {
    assert (events + [e])[..|events|] == events;
  }
}
