/** internal/scheduler: periodic and one-shot jobs.

    Times are nanoseconds since the zero time, so 0 is time.Time's zero value. An
    entry is identified by its index in `entries`; re-scheduling a name makes a
    fresh one. `Scheduler` holds the guarded fields; `Sys` interleaves any number
    of Schedule, Unschedule and RunDue calls and the invocations they spawn, one
    critical section or atomic operation per step.
 */
module Scheduler {
  import opened Options
  import opened Counting
  import Limiter

  const IDLE_TIMEOUT: int := 60_000_000_000
  const MICROSECOND: int := 1_000

  datatype Job = Job(name: string, hasFunc: bool, interval: int, at: int)

  datatype Error = NameRequired | NoFunc | NoSchedule | Stopped

  datatype JobEntry = JobEntry(name: string, interval: int, nextDue: int, running: bool)

  datatype Core = Core(jobs: map<string, nat>, entries: seq<JobEntry>, stopped: bool)

  function Rejection(j: Job, stopped: bool): Option<Error> {
    if j.name == "" then Some(NameRequired)
    else if !j.hasFunc then Some(NoFunc)
    else if j.interval <= 0 && j.at == 0 then Some(NoSchedule)
    else if stopped then Some(Stopped)
    else None
  }

  function FirstDue(j: Job, now: int): int {
    if j.at == 0 then now + j.interval else j.at
  }

  function Register(c: Core, j: Job, now: int): Core {
    c.(entries := c.entries + [JobEntry(j.name, j.interval, FirstDue(j, now), false)],
       jobs := c.jobs[j.name := |c.entries|])
  }

  function Unregister(c: Core, name: string): Core {
    c.(jobs := c.jobs - {name})
  }

  predicate Due(e: JobEntry, now: int) {
    e.nextDue != 0 && e.nextDue <= now && !e.running
  }

  function Advanced(e: JobEntry, runStart: int): JobEntry {
    e.(nextDue := if e.interval > 0 then runStart + e.interval else 0)
  }

  /** Each name maps to an entry of that name, so entries are not shared. */
  ghost predicate Indexed(c: Core) {
    forall k :: k in c.jobs ==> c.jobs[k] < |c.entries| && c.entries[c.jobs[k]].name == k
  }

  ghost predicate IsDue(c: Core, id: nat, now: int) {
    id < |c.entries| && c.entries[id].name in c.jobs && c.jobs[c.entries[id].name] == id && Due(c.entries[id], now)
  }

  /** The due entries, each once, in whatever order the map yields them. */
  ghost predicate Collected(c: Core, now: int, due: seq<nat>) {
    && (forall id: nat :: id in due <==> IsDue(c, id, now))
    && (forall p, q :: 0 <= p < q < |due| ==> due[p] != due[q])
  }

  ghost predicate Scheduled(c: Core, t: int) {
    exists k :: k in c.jobs && c.jobs[k] < |c.entries| && c.entries[c.jobs[k]].nextDue == t && t != 0
  }

  ghost predicate Overdue(c: Core, now: int) {
    exists t :: Scheduled(c, t) && t <= now
  }

  /** How long to sleep: a positive time of at most the idle timeout; a microsecond
      if a job is overdue; otherwise never past a due time, and no shorter than the
      idle timeout unless some job is due by then. */
  ghost predicate Sleeps(c: Core, now: int, d: int) {
    && 0 < d <= IDLE_TIMEOUT
    && (Overdue(c, now) ==> d == MICROSECOND)
    && (!Overdue(c, now) ==> forall t :: Scheduled(c, t) ==> d <= t - now)
    && (d < IDLE_TIMEOUT ==> exists t :: Scheduled(c, t) && t <= now + d)
  }

  class Scheduler {
    var jobs: map<string, nat>
    var entries: seq<JobEntry>
    var stopped: bool

    ghost function View(): Core
      reads this
    {
      Core(jobs, entries, stopped)
    }

    constructor ()
      ensures Indexed(View()) && View() == Core(map[], [], false)
    {
      jobs, entries, stopped := map[], [], false;
    }

    method Schedule(j: Job, now: int) returns (r: Option<Error>)
      requires Indexed(View())
      modifies this
      ensures Indexed(View())
      ensures r == Rejection(j, old(stopped))
      ensures View() == if r.None? then Register(old(View()), j, now) else old(View())
      ensures r == Some(NameRequired) <==> j.name == ""
      ensures r == Some(NoFunc) <==> j.name != "" && !j.hasFunc
      ensures r == Some(NoSchedule) <==> j.name != "" && j.hasFunc && j.interval <= 0 && j.at == 0
      ensures r == Some(Error.Stopped) <==>
                j.name != "" && j.hasFunc && (j.interval > 0 || j.at != 0) && old(stopped)
      ensures stopped == old(stopped) && (r.Some? ==> jobs == old(jobs) && entries == old(entries))
      ensures r.None? ==>
                && jobs == old(jobs)[j.name := |old(entries)|] && |entries| == |old(entries)| + 1
                && entries[..|old(entries)|] == old(entries)
                && entries[|old(entries)|].name == j.name && entries[|old(entries)|].interval == j.interval
                && entries[|old(entries)|].nextDue == (if j.at != 0 then j.at else now + j.interval)
                && !entries[|old(entries)|].running
    {
      if j.name == "" { return Some(NameRequired); }
      if !j.hasFunc { return Some(NoFunc); }
      if j.interval <= 0 && j.at == 0 { return Some(NoSchedule); }
      if stopped { return Some(Error.Stopped); }
      var first := j.at;
      if first == 0 {
        first := now + j.interval;
      }
      jobs := jobs[j.name := |entries|];
      entries := entries + [JobEntry(j.name, j.interval, first, false)];
      return None;
    }

    method Unschedule(name: string) returns (ok: bool)
      requires Indexed(View())
      modifies this
      ensures Indexed(View())
      ensures ok <==> name in old(jobs)
      ensures View() == Unregister(old(View()), name)
      ensures entries == old(entries) && stopped == old(stopped)
      ensures name !in jobs && forall k :: k != name ==>
                (k in jobs <==> k in old(jobs)) && (k in jobs ==> jobs[k] == old(jobs)[k])
    {
      ok := name in jobs;
      if ok {
        jobs := jobs - {name};
      }
    }

    method NextDue() returns (earliest: int, found: bool)
      requires Indexed(View())
      ensures found ==> Scheduled(View(), earliest)
      ensures forall t :: Scheduled(View(), t) ==> found && earliest <= t
      ensures found ==> exists k :: k in jobs && entries[jobs[k]].nextDue == earliest != 0
      ensures forall k :: k in jobs && entries[jobs[k]].nextDue != 0 ==> found && earliest <= entries[jobs[k]].nextDue
    {
      earliest, found := 0, false;
      var rest := jobs.Keys;
      while rest != {}
        invariant rest <= jobs.Keys
        invariant found ==> Scheduled(View(), earliest)
        invariant forall k :: k in jobs && k !in rest && entries[jobs[k]].nextDue != 0
                              ==> found && earliest <= entries[jobs[k]].nextDue
        decreases |rest|
      {
        var k :| k in rest;
        var e := entries[jobs[k]];
        if e.nextDue != 0 && (!found || e.nextDue < earliest) {
          earliest, found := e.nextDue, true;
        }
        rest := rest - {k};
      }
    }

    /** RunDue's first phase, under the lock. */
    method Collect(now: int) returns (due: seq<nat>)
      requires Indexed(View())
      ensures Collected(View(), now, due)
      ensures forall k :: k in jobs ==>
                (jobs[k] in due <==> entries[jobs[k]].nextDue != 0 && entries[jobs[k]].nextDue <= now
                                     && !entries[jobs[k]].running)
      ensures forall id: nat :: id in due ==> exists k :: k in jobs && jobs[k] == id
    {
      due := [];
      var rest := jobs.Keys;
      while rest != {}
        invariant rest <= jobs.Keys
        invariant forall id: nat :: id in due <==> IsDue(View(), id, now) && entries[id].name !in rest
        invariant forall p, q :: 0 <= p < q < |due| ==> due[p] != due[q]
        decreases |rest|
      {
        var k :| k in rest;
        var e := entries[jobs[k]];
        if e.nextDue == 0 || e.nextDue > now || e.running {
        } else {
          due := due + [jobs[k]];
        }
        rest := rest - {k};
      }
    }

    /** The compare-and-swap on `running`. */
    method TryClaim(id: nat) returns (won: bool)
      requires id < |entries|
      modifies this
      ensures won <==> !old(entries)[id].running
      ensures jobs == old(jobs) && stopped == old(stopped)
      ensures entries == old(entries)[id := old(entries)[id].(running := true)]
    {
      won := !entries[id].running;
      entries := entries[id := entries[id].(running := true)];
    }

    method AdvanceNext(id: nat, runStart: int)
      requires id < |entries|
      modifies this
      ensures jobs == old(jobs) && stopped == old(stopped)
      ensures entries == old(entries)[id := Advanced(old(entries)[id], runStart)]
      ensures |entries| == |old(entries)| && forall k :: 0 <= k < |entries| && k != id ==> entries[k] == old(entries)[k]
      ensures old(entries)[id].interval > 0 ==> entries[id].nextDue == runStart + old(entries)[id].interval
      ensures old(entries)[id].interval <= 0 ==> entries[id].nextDue == 0
      ensures entries[id] == old(entries)[id].(nextDue := entries[id].nextDue)
    {
      var e := entries[id];
      if e.interval > 0 {
        entries := entries[id := e.(nextDue := runStart + e.interval)];
      } else {
        entries := entries[id := e.(nextDue := 0)];
      }
    }

    /** How long Start sleeps. */
    method NextSleep(now: int) returns (d: int)
      requires Indexed(View())
      ensures Sleeps(View(), now, d)
      ensures 0 < d <= 60_000_000_000
      ensures (forall k :: k in jobs ==> entries[jobs[k]].nextDue == 0) ==> d == 60_000_000_000
      ensures (exists k :: k in jobs && entries[jobs[k]].nextDue != 0 && entries[jobs[k]].nextDue <= now) ==> d == 1_000
    {
      var next, ok := NextDue();
      if !ok { return IDLE_TIMEOUT; }
      d := next - now;
      if d <= 0 { return MICROSECOND; }
      if d > IDLE_TIMEOUT { return IDLE_TIMEOUT; }
    }
  }

  ghost predicate Oversleeps(c: Core, now: int, d: int) {
    exists t :: Scheduled(c, t) && now < t < now + d
  }

  /** Exactly when the sleep passes a due time still ahead: with a job overdue, and
      another due within the microsecond taken for it. */
  lemma OversleepsIff(c: Core, now: int, d: int)
    requires Sleeps(c, now, d)
    ensures Oversleeps(c, now, d) <==> Overdue(c, now) && Oversleeps(c, now, MICROSECOND)
  {
  }

  /** One job overdue since 5 and one due at 1600, at time 1000. */
  lemma OverdueJobOversleeps(d: int)
    ensures var c := Core(map["late" := 0, "soon" := 1],
                          [JobEntry("late", 0, 5, false), JobEntry("soon", 0, 1600, false)], false);
            Sleeps(c, 1000, d) ==> Oversleeps(c, 1000, d)
  {
    var c := Core(map["late" := 0, "soon" := 1],
                  [JobEntry("late", 0, 5, false), JobEntry("soon", 0, 1600, false)], false);
    assert c.jobs["late"] == 0 && Scheduled(c, 5);
    assert c.jobs["soon"] == 1 && Scheduled(c, 1600);
  }

  // ---------------------------------------------------------------------
  // Concurrent calls and invocations
  // ---------------------------------------------------------------------

  /** A RunDue call works through its list; `Won` to `Added` are the steps after
      a successful compare-and-swap on the entry at its head. */
  datatype Stage = Scanning | Won | Rescheduled | Added

  datatype Call = Call(now: int, due: seq<nat>, stage: Stage)

  /** An invocation, from `go s.run` to its last deferred call. A context that has
      ended is noticed on entering the acquire or, later, when the permit does not fit. */
  datatype Phase = Starting | Waiting | Permitted | Body | Ended | Clearing | Retiring | Finished

  datatype Invocation = Invocation(entry: nat, phase: Phase)

  datatype Launch = Launch(entry: nat, at: int)

  /** `limited` says whether a limiter is configured; `overlap` whether RunDue may
      be called while another RunDue is still working through its list. The last two
      fields are history: the launches made, and the time each entry was first to
      be due. */
  datatype Sys = Sys(
    core: Core, limited: bool, overlap: bool, sem: Limiter.Sem,
    calls: seq<Call>, runs: seq<Invocation>, wg: nat, launches: seq<Launch>, firsts: seq<int>)

  datatype Event =
    | DoSchedule(job: Job, now: int)
    | DoUnschedule(name: string)
    | StartRunDue(now: int, due: seq<nat>)
    | OfCall(call: nat, stage: Stage)                  // the step a RunDue call takes at `stage`
    | OfRun(run: nat, phase: Phase, cancelled: bool)   // the step an invocation takes in `phase`

  function Init(capacity: Option<nat>, overlap: bool): Sys {
    Sys(Core(map[], [], false), capacity.Some?, overlap,
        Limiter.Sem(if capacity.Some? then capacity.value else 0, 0, 0, 0), [], [], 0, [], [])
  }

  ghost predicate AllReturned(calls: seq<Call>) {
    forall i :: 0 <= i < |calls| ==> calls[i].due == []
  }

  function SetCall(s: Sys, i: nat, c: Call): Sys
    requires i < |s.calls|
  {
    s.(calls := s.calls[i := c])
  }

  function SetRun(s: Sys, i: nat, phase: Phase): Sys
    requires i < |s.runs|
  {
    s.(runs := s.runs[i := s.runs[i].(phase := phase)])
  }

  function SetEntry(s: Sys, id: nat, e: JobEntry): Sys
    requires id < |s.core.entries|
  {
    s.(core := s.core.(entries := s.core.entries[id := e]))
  }

  /** One step of the RunDue call `i`. */
  function CallStep(s: Sys, i: nat, stage: Stage): Sys {
    if i < |s.calls| && s.calls[i].due != [] && s.calls[i].stage == stage && s.calls[i].due[0] < |s.core.entries| then
      var c := s.calls[i];
      var id := c.due[0];
      var e := s.core.entries[id];
      match stage
      case Scanning =>
        if e.running then SetCall(s, i, c.(due := c.due[1..]))
        else SetCall(SetEntry(s, id, e.(running := true)), i, c.(stage := Won))
      case Won =>
        SetCall(SetEntry(s, id, Advanced(e, c.now)), i, c.(stage := Rescheduled))
        .(launches := s.launches + [Launch(id, c.now)])
      case Rescheduled => SetCall(s, i, c.(stage := Added)).(wg := s.wg + 1)
      case Added =>
        SetCall(s, i, c.(due := c.due[1..], stage := Scanning)).(runs := s.runs + [Invocation(id, Starting)])
    else s
  }

  /** One step of the invocation `i`. */
  function RunStep(s: Sys, i: nat, phase: Phase, cancelled: bool): Sys {
    if i < |s.runs| && s.runs[i].phase == phase && s.runs[i].entry < |s.core.entries| then
      match phase
      case Starting =>
        if !s.limited then SetRun(s, i, Body)
        else if cancelled then SetRun(s, i, Clearing)
        else SetRun(s, i, Waiting)
      case Waiting =>
        if Limiter.Fits(s.sem, 1) then SetRun(s, i, Permitted).(sem := Limiter.Take(s.sem, 1, false))
        else if cancelled then SetRun(s, i, Clearing)
        else s
      case Permitted => SetRun(s, i, Body)
      case Body => SetRun(s, i, Ended)
      case Ended =>
        if !s.limited then SetRun(s, i, Clearing)
        else if 0 < s.sem.inFlight then SetRun(s, i, Clearing).(sem := Limiter.Give(s.sem, 1))
        else s
      case Clearing =>
        SetEntry(SetRun(s, i, Retiring), s.runs[i].entry, s.core.entries[s.runs[i].entry].(running := false))
      case Retiring => if 0 < s.wg then SetRun(s, i, Finished).(wg := s.wg - 1) else s
      case Finished => s
    else s
  }

  ghost function Step(s: Sys, e: Event): Sys {
    match e
    case DoSchedule(job, now) =>
      // The stopped flag may have been read before a Stop, so it is not consulted here.
      if Rejection(job, false).None? then
        s.(core := Register(s.core, job, now), firsts := s.firsts + [FirstDue(job, now)])
      else s
    case DoUnschedule(name) => s.(core := Unregister(s.core, name))
    case StartRunDue(now, due) =>
      if Collected(s.core, now, due) && (s.overlap || AllReturned(s.calls)) then
        s.(calls := s.calls + [Call(now, due, Scanning)])
      else s
    case OfCall(i, stage) => CallStep(s, i, stage)
    case OfRun(i, phase, cancelled) => RunStep(s, i, phase, cancelled)
  }

  ghost function Exec(s: Sys, events: seq<Event>): Sys {
    if events == [] then s
    else Step(Exec(s, events[..|events| - 1]), events[|events| - 1])
  }

  // ---------------------------------------------------------------------
  // Ownership of the running flags, and the books
  // ---------------------------------------------------------------------

  predicate Launching(c: Call) { c.due != [] && !c.stage.Scanning? }
  predicate Live(r: Invocation) { !r.phase.Retiring? && !r.phase.Finished? }
  predicate HoldsPermit(r: Invocation) { r.phase.Permitted? || r.phase.Body? || r.phase.Ended? }

  function RunningW(e: JobEntry): nat { if e.running then 1 else 0 }
  function LaunchingW(c: Call): nat { if Launching(c) then 1 else 0 }
  function AddedW(c: Call): nat { if Launching(c) && c.stage.Added? then 1 else 0 }
  function LiveW(r: Invocation): nat { if Live(r) then 1 else 0 }
  function PermitW(r: Invocation): nat { if HoldsPermit(r) then 1 else 0 }
  function BodyW(r: Invocation): nat { if r.phase.Body? then 1 else 0 }
  function UnfinishedW(r: Invocation): nat { if r.phase.Finished? then 0 else 1 }

  /** A call lists entries that exist, each once. */
  ghost predicate Listed(c: Call, size: nat) {
    && (forall k :: 0 <= k < |c.due| ==> c.due[k] < size)
    && (forall k, l :: 0 <= k < l < |c.due| ==> c.due[k] != c.due[l])
    && (c.due == [] ==> c.stage.Scanning?)
  }

  ghost predicate Shape(s: Sys) {
    && Indexed(s.core)
    && (forall i :: 0 <= i < |s.calls| ==> Listed(s.calls[i], |s.core.entries|))
    && (forall i :: 0 <= i < |s.runs| ==> s.runs[i].entry < |s.core.entries|)
  }

  /** The entry whose running flag a call or an invocation is responsible for, or -1. */
  function CallClaim(c: Call): int { if Launching(c) then c.due[0] else -1 }
  function RunClaim(r: Invocation): int { if Live(r) then r.entry else -1 }

  predicate Flagged(entries: seq<JobEntry>, id: int) {
    0 <= id < |entries| && entries[id].running
  }

  /** Whoever claims an entry finds its flag set, and no two claim the same. */
  ghost predicate Owned(s: Sys) {
    && (forall i :: 0 <= i < |s.calls| && CallClaim(s.calls[i]) != -1 ==>
          Flagged(s.core.entries, CallClaim(s.calls[i])))
    && (forall i :: 0 <= i < |s.runs| && RunClaim(s.runs[i]) != -1 ==>
          Flagged(s.core.entries, RunClaim(s.runs[i])))
    && (forall i, j :: 0 <= i < j < |s.calls| && CallClaim(s.calls[i]) != -1 ==>
          CallClaim(s.calls[i]) != CallClaim(s.calls[j]))
    && (forall i, j :: 0 <= i < j < |s.runs| && RunClaim(s.runs[i]) != -1 ==>
          RunClaim(s.runs[i]) != RunClaim(s.runs[j]))
    && (forall i, j :: 0 <= i < |s.calls| && 0 <= j < |s.runs| && CallClaim(s.calls[i]) != -1
                       ==> CallClaim(s.calls[i]) != RunClaim(s.runs[j]))
  }

  ghost predicate Books(s: Sys) {
    && Total(s.core.entries, RunningW) == Total(s.calls, LaunchingW) + Total(s.runs, LiveW)
    && s.wg == Total(s.calls, AddedW) + Total(s.runs, UnfinishedW)
    && (s.limited ==> s.sem.inFlight == Total(s.runs, PermitW) <= s.sem.capacity)
  }

  lemma ShapeMove(s: Sys, t: Sys, i: nat)
    requires Shape(s) && t.core.jobs == s.core.jobs && |t.core.entries| == |s.core.entries|
    requires forall id :: 0 <= id < |s.core.entries| ==> t.core.entries[id].name == s.core.entries[id].name
    requires i < |s.calls| && |t.calls| == |s.calls| && t.calls == s.calls[i := t.calls[i]]
    requires Listed(t.calls[i], |s.core.entries|)
    requires t.runs == s.runs || (s.calls[i].due != [] && t.runs == s.runs + [Invocation(s.calls[i].due[0], Starting)])
    ensures Shape(t)
  {
    assert Listed(s.calls[i], |s.core.entries|);
  }

  lemma ShapeKeptByCall(s: Sys, i: nat, stage: Stage)
    requires Shape(s)
    ensures Shape(CallStep(s, i, stage))
  {
    if i < |s.calls| && s.calls[i].due != [] && s.calls[i].stage == stage && s.calls[i].due[0] < |s.core.entries| {
      assert Listed(s.calls[i], |s.core.entries|);
      ShapeMove(s, CallStep(s, i, stage), i);
    }
  }

  lemma ShapeKeptByRun(s: Sys, i: nat, phase: Phase, cancelled: bool)
    requires Shape(s)
    ensures Shape(RunStep(s, i, phase, cancelled))
  {
  }

  lemma ShapeKeptByStart(s: Sys, now: int, due: seq<nat>)
    requires Shape(s) && Collected(s.core, now, due)
    ensures Shape(s.(calls := s.calls + [Call(now, due, Scanning)]))
  {
    forall k | 0 <= k < |due| ensures due[k] < |s.core.entries| {
      assert due[k] in due;
    }
  }

  /** No claim and no flag changes; new calls and entries start without any. */
  lemma OwnedSame(s: Sys, t: Sys)
    requires Owned(s)
    requires |s.calls| <= |t.calls| && forall i :: 0 <= i < |t.calls| ==>
               CallClaim(t.calls[i]) == if i < |s.calls| then CallClaim(s.calls[i]) else -1
    requires |t.runs| == |s.runs| && forall i :: 0 <= i < |t.runs| ==> RunClaim(t.runs[i]) == RunClaim(s.runs[i])
    requires forall id :: Flagged(s.core.entries, id) ==> Flagged(t.core.entries, id)
    ensures Owned(t)
  {
  }

  lemma OwnedClaim(s: Sys, t: Sys, i: nat, id: nat)
    requires Owned(s) && t.runs == s.runs && i < |s.calls| && |t.calls| == |s.calls|
    requires t.calls == s.calls[i := t.calls[i]] && CallClaim(t.calls[i]) == id
    requires !Flagged(s.core.entries, id) && Flagged(t.core.entries, id)
    requires forall k :: Flagged(s.core.entries, k) ==> Flagged(t.core.entries, k)
    ensures Owned(t)
  {
  }

  lemma OwnedSpawn(s: Sys, t: Sys, i: nat)
    requires Owned(s) && t.core == s.core && i < |s.calls| && |t.calls| == |s.calls|
    requires t.calls == s.calls[i := t.calls[i]] && CallClaim(s.calls[i]) != -1 && CallClaim(t.calls[i]) == -1
    requires |t.runs| == |s.runs| + 1 && t.runs == s.runs + [t.runs[|s.runs|]]
    requires RunClaim(t.runs[|s.runs|]) == CallClaim(s.calls[i])
    ensures Owned(t)
  {
  }

  lemma OwnedClear(s: Sys, t: Sys, i: nat)
    requires Owned(s) && t.calls == s.calls && i < |s.runs| && |t.runs| == |s.runs|
    requires t.runs == s.runs[i := t.runs[i]] && RunClaim(s.runs[i]) != -1 && RunClaim(t.runs[i]) == -1
    requires forall k :: k != RunClaim(s.runs[i]) && Flagged(s.core.entries, k) ==> Flagged(t.core.entries, k)
    ensures Owned(t)
  {
  }

  lemma OwnedKeptByCall(s: Sys, i: nat, stage: Stage)
    requires Shape(s) && Owned(s)
    ensures Owned(CallStep(s, i, stage))
  {
    var t := CallStep(s, i, stage);
    if i < |s.calls| && s.calls[i].due != [] && s.calls[i].stage == stage && s.calls[i].due[0] < |s.core.entries| {
      var id := s.calls[i].due[0];
      if stage.Scanning? && !s.core.entries[id].running {
        OwnedClaim(s, t, i, id);
      } else if stage.Added? {
        OwnedSpawn(s, t, i);
      } else {
        OwnedSame(s, t);
      }
    }
  }

  lemma OwnedKeptByRun(s: Sys, i: nat, phase: Phase, cancelled: bool)
    requires Shape(s) && Owned(s)
    ensures Owned(RunStep(s, i, phase, cancelled))
  {
    var t := RunStep(s, i, phase, cancelled);
    if i < |s.runs| && s.runs[i].phase == phase {
      if phase.Clearing? {
        OwnedClear(s, t, i);
      } else {
        OwnedSame(s, t);
      }
    }
  }

  // ---------------------------------------------------------------------

  lemma {:induction false} CallMoves(calls: seq<Call>, i: nat, c: Call)
    requires i < |calls|
    ensures Total(calls[i := c], LaunchingW) + LaunchingW(calls[i]) == Total(calls, LaunchingW) + LaunchingW(c)
    ensures Total(calls[i := c], AddedW) + AddedW(calls[i]) == Total(calls, AddedW) + AddedW(c)
  {
    Update(calls, i, c, LaunchingW);
    Update(calls, i, c, AddedW);
  }

  lemma {:induction false} RunMoves(runs: seq<Invocation>, i: nat, r: Invocation)
    requires i < |runs|
    ensures Total(runs[i := r], LiveW) + LiveW(runs[i]) == Total(runs, LiveW) + LiveW(r)
    ensures Total(runs[i := r], PermitW) + PermitW(runs[i]) == Total(runs, PermitW) + PermitW(r)
    ensures Total(runs[i := r], UnfinishedW) + UnfinishedW(runs[i]) == Total(runs, UnfinishedW) + UnfinishedW(r)
  {
    Update(runs, i, r, LiveW);
    Update(runs, i, r, PermitW);
    Update(runs, i, r, UnfinishedW);
  }

  lemma {:induction false} RunStarts(runs: seq<Invocation>, entry: nat)
    ensures var r := Invocation(entry, Starting);
            && Total(runs + [r], LiveW) == Total(runs, LiveW) + 1
            && Total(runs + [r], PermitW) == Total(runs, PermitW)
            && Total(runs + [r], UnfinishedW) == Total(runs, UnfinishedW) + 1
  {
    var r := Invocation(entry, Starting);
    Append(runs, r, LiveW);
    Append(runs, r, PermitW);
    Append(runs, r, UnfinishedW);
  }

  /** Moving one call keeps the books when the flags and the wait group move with it. */
  lemma {:induction false} BooksMoveCall(s: Sys, t: Sys, i: nat)
    requires Books(s) && i < |s.calls| && |t.calls| == |s.calls| && t.calls == s.calls[i := t.calls[i]]
    requires t.runs == s.runs && t.limited == s.limited && t.sem == s.sem
    requires Total(t.core.entries, RunningW) + LaunchingW(s.calls[i])
             == Total(s.core.entries, RunningW) + LaunchingW(t.calls[i])
    requires t.wg + AddedW(s.calls[i]) == s.wg + AddedW(t.calls[i])
    ensures Books(t)
  {
    CallMoves(s.calls, i, t.calls[i]);
  }

  /** A launch handed over to a fresh invocation. */
  lemma BooksHandOver(s: Sys, t: Sys, i: nat, entry: nat)
    requires Books(s) && i < |s.calls| && |t.calls| == |s.calls| && t.calls == s.calls[i := t.calls[i]]
    requires t.core == s.core && t.wg == s.wg && t.limited == s.limited && t.sem == s.sem
    requires AddedW(s.calls[i]) == 1 && LaunchingW(t.calls[i]) == AddedW(t.calls[i]) == 0
    requires t.runs == s.runs + [Invocation(entry, Starting)]
    ensures Books(t)
  {
    CallMoves(s.calls, i, t.calls[i]);
    RunStarts(s.runs, entry);
  }

  /** A flag is raised by the step that claims its entry and by no other. */
  lemma {:induction false} EntryMoves(s: Sys, i: nat, stage: Stage)
    requires i < |s.calls| && s.calls[i].due != [] && s.calls[i].stage == stage && s.calls[i].due[0] < |s.core.entries|
    ensures var won := stage.Scanning? && !s.core.entries[s.calls[i].due[0]].running;
            Total(CallStep(s, i, stage).core.entries, RunningW)
            == Total(s.core.entries, RunningW) + if won then 1 else 0
  {
    var id := s.calls[i].due[0];
    if stage.Scanning? {
      Update(s.core.entries, id, s.core.entries[id].(running := true), RunningW);
    } else if stage.Won? {
      Update(s.core.entries, id, Advanced(s.core.entries[id], s.calls[i].now), RunningW);
    }
  }

  lemma BooksKeptByCall(s: Sys, i: nat, stage: Stage)
    requires Books(s)
    ensures Books(CallStep(s, i, stage))
  {
    if i < |s.calls| && s.calls[i].due != [] && s.calls[i].stage == stage && s.calls[i].due[0] < |s.core.entries| {
      var id := s.calls[i].due[0];
      var t := CallStep(s, i, stage);
      if stage.Added? {
        BooksHandOver(s, t, i, id);
      } else {
        EntryMoves(s, i, stage);
        BooksMoveCall(s, t, i);
      }
    }
  }

  /** Moving one invocation keeps the books when every counter moves with it. */
  lemma {:induction false} BooksMove(s: Sys, t: Sys, i: nat)
    requires Books(s) && i < |s.runs| && |t.runs| == |s.runs| && t.runs == s.runs[i := t.runs[i]]
    requires t.calls == s.calls && t.limited == s.limited && t.sem.capacity == s.sem.capacity
    requires Total(t.core.entries, RunningW) + LiveW(s.runs[i]) == Total(s.core.entries, RunningW) + LiveW(t.runs[i])
    requires t.wg + UnfinishedW(s.runs[i]) == s.wg + UnfinishedW(t.runs[i])
    requires s.limited ==>
               && t.sem.inFlight + PermitW(s.runs[i]) == s.sem.inFlight + PermitW(t.runs[i])
               && t.sem.inFlight <= s.sem.capacity
    ensures Books(t)
  {
    RunMoves(s.runs, i, t.runs[i]);
  }

  /** An invocation about to clear a flag finds it set. */
  predicate WillClear(s: Sys, i: nat) {
    i < |s.runs| && s.runs[i].phase.Clearing? ==> Flagged(s.core.entries, s.runs[i].entry)
  }

  lemma FlagIsSet(s: Sys, i: nat)
    requires Shape(s) && Owned(s)
    ensures WillClear(s, i)
  {
    assert i < |s.runs| && s.runs[i].phase.Clearing? ==> RunClaim(s.runs[i]) == s.runs[i].entry;
  }

  lemma BooksKeptByClear(s: Sys, i: nat, cancelled: bool)
    requires Books(s) && WillClear(s, i)
    ensures Books(RunStep(s, i, Clearing, cancelled))
  {
    if i < |s.runs| && s.runs[i].phase.Clearing? {
      var id := s.runs[i].entry;
      Update(s.core.entries, id, s.core.entries[id].(running := false), RunningW);
      BooksMove(s, RunStep(s, i, Clearing, cancelled), i);
    }
  }

  lemma BooksKeptByAcquire(s: Sys, i: nat, cancelled: bool)
    requires Books(s)
    ensures Books(RunStep(s, i, Waiting, cancelled))
  {
    if i < |s.runs| && s.runs[i].phase.Waiting? {
      BooksMove(s, RunStep(s, i, Waiting, cancelled), i);
    }
  }

  lemma BooksKeptByRun(s: Sys, i: nat, phase: Phase, cancelled: bool)
    requires Books(s) && !phase.Clearing? && !phase.Waiting?
    ensures Books(RunStep(s, i, phase, cancelled))
  {
    if i < |s.runs| && s.runs[i].phase == phase {
      BooksMove(s, RunStep(s, i, phase, cancelled), i);
    }
  }

  lemma BooksKeptByAnyRun(s: Sys, i: nat, phase: Phase, cancelled: bool)
    requires Books(s) && WillClear(s, i)
    ensures Books(RunStep(s, i, phase, cancelled))
  {
    match phase
    case Clearing => BooksKeptByClear(s, i, cancelled);
    case Waiting => BooksKeptByAcquire(s, i, cancelled);
    case _ => BooksKeptByRun(s, i, phase, cancelled);
  }

  lemma BooksKeptByRegister(s: Sys, j: Job, now: int)
    requires Books(s)
    ensures Books(Step(s, DoSchedule(j, now)))
  {
    Append(s.core.entries, JobEntry(j.name, j.interval, FirstDue(j, now), false), RunningW);
  }

  lemma BooksKeptByStart(s: Sys, c: Call)
    requires Books(s) && !Launching(c)
    ensures Books(s.(calls := s.calls + [c]))
  {
    Append(s.calls, c, LaunchingW);
    Append(s.calls, c, AddedW);
  }

  ghost predicate Inv(s: Sys) {
    Shape(s) && Owned(s) && Books(s)
  }

  lemma CallKeepsInv(s: Sys, i: nat, stage: Stage)
    requires Inv(s)
    ensures Inv(Step(s, OfCall(i, stage)))
  {
    ShapeKeptByCall(s, i, stage);
    OwnedKeptByCall(s, i, stage);
    BooksKeptByCall(s, i, stage);
  }

  lemma RunKeepsInv(s: Sys, i: nat, phase: Phase, cancelled: bool)
    requires Inv(s)
    ensures Inv(Step(s, OfRun(i, phase, cancelled)))
  {
    ShapeKeptByRun(s, i, phase, cancelled);
    OwnedKeptByRun(s, i, phase, cancelled);
    FlagIsSet(s, i);
    BooksKeptByAnyRun(s, i, phase, cancelled);
  }

  lemma RegisterKeepsInv(s: Sys, j: Job, now: int)
    requires Inv(s)
    ensures Inv(Step(s, DoSchedule(j, now)))
  {
    ShapeKeptByRegister(s, j, now);
    OwnedSame(s, Step(s, DoSchedule(j, now)));
    BooksKeptByRegister(s, j, now);
  }

  lemma ShapeKeptByRegister(s: Sys, j: Job, now: int)
    requires Shape(s)
    ensures Shape(Step(s, DoSchedule(j, now)))
  {
    var t := Step(s, DoSchedule(j, now));
    forall i | 0 <= i < |t.calls| ensures Listed(t.calls[i], |t.core.entries|) {
      assert Listed(s.calls[i], |s.core.entries|);
    }
  }

  lemma UnregisterKeepsInv(s: Sys, name: string)
    requires Inv(s)
    ensures Inv(Step(s, DoUnschedule(name)))
  {
    OwnedSame(s, Step(s, DoUnschedule(name)));
  }

  lemma StartKeepsInv(s: Sys, now: int, due: seq<nat>)
    requires Inv(s)
    ensures Inv(Step(s, StartRunDue(now, due)))
  {
    if Collected(s.core, now, due) {
      OwnedSame(s, s.(calls := s.calls + [Call(now, due, Scanning)]));
      BooksKeptByStart(s, Call(now, due, Scanning));
      ShapeKeptByStart(s, now, due);
    }
  }

  lemma StepKeepsInv(s: Sys, e: Event)
    requires Inv(s)
    ensures Inv(Step(s, e))
  {
    match e
    case DoSchedule(j, now) => RegisterKeepsInv(s, j, now);
    case DoUnschedule(name) => UnregisterKeepsInv(s, name);
    case StartRunDue(now, due) => StartKeepsInv(s, now, due);
    case OfCall(i, stage) => CallKeepsInv(s, i, stage);
    case OfRun(i, phase, cancelled) => RunKeepsInv(s, i, phase, cancelled);
  }

  lemma ConfigurationIsFixed(s: Sys, e: Event)
    ensures Step(s, e).limited == s.limited && Step(s, e).overlap == s.overlap
    ensures Step(s, e).sem.capacity == s.sem.capacity
  {
  }

  lemma {:induction false} Reachable(capacity: Option<nat>, overlap: bool, events: seq<Event>)
    ensures var s := Exec(Init(capacity, overlap), events);
            Inv(s) && s.limited == capacity.Some? && s.overlap == overlap
            && s.sem.capacity == Init(capacity, overlap).sem.capacity
  {
    if events != [] {
      Reachable(capacity, overlap, events[..|events| - 1]);
      StepKeepsInv(Exec(Init(capacity, overlap), events[..|events| - 1]), events[|events| - 1]);
      ConfigurationIsFixed(Exec(Init(capacity, overlap), events[..|events| - 1]), events[|events| - 1]);
    }
  }

  // ---------------------------------------------------------------------
  // Main results
  // ---------------------------------------------------------------------

  /** Under a limiter, `inFlight` is the number of permits held, never above the
      capacity; bodies running are at most the permits, and permits at most the
      running flags that are set. */
  lemma {:induction false} ConcurrencyIsBounded(capacity: nat, overlap: bool, events: seq<Event>)
    ensures var s := Exec(Init(Some(capacity), overlap), events);
            && Total(s.runs, BodyW) <= Total(s.runs, PermitW) == s.sem.inFlight <= capacity
            && s.sem.inFlight <= Total(s.core.entries, RunningW)
  {
    Reachable(Some(capacity), overlap, events);
    var s := Exec(Init(Some(capacity), overlap), events);
    Dominated(s.runs, BodyW, PermitW);
    Dominated(s.runs, PermitW, LiveW);
  }

  /** No two invocations of one entry are live together, with or without a
      limiter and however RunDue calls overlap. */
  lemma {:induction false} InvocationsDoNotOverlap(capacity: Option<nat>, overlap: bool, events: seq<Event>,
                                                   i: nat, j: nat)
    requires var s := Exec(Init(capacity, overlap), events);
             i < |s.runs| && j < |s.runs| && Live(s.runs[i]) && Live(s.runs[j]) && s.runs[i].entry == s.runs[j].entry
    ensures i == j
    ensures var s := Exec(Init(capacity, overlap), events); Flagged(s.core.entries, s.runs[i].entry)
  {
    Reachable(capacity, overlap, events);
    var s := Exec(Init(capacity, overlap), events);
    assert RunClaim(s.runs[i]) == RunClaim(s.runs[j]) != -1;
  }

  /** When WaitInflight sees the wait group at zero every invocation is finished,
      no permit is held, and the flags still set belong to RunDue calls that have
      won an entry but not yet counted it. */
  lemma {:induction false} WaitSeesEverythingFinished(capacity: Option<nat>, overlap: bool, events: seq<Event>)
    requires Exec(Init(capacity, overlap), events).wg == 0
    ensures var s := Exec(Init(capacity, overlap), events);
            && (forall i :: 0 <= i < |s.runs| ==> s.runs[i].phase.Finished?)
            && (s.limited ==> s.sem.inFlight == 0)
            && Total(s.core.entries, RunningW) == Total(s.calls, LaunchingW)
            && (forall i :: 0 <= i < |s.calls| && Launching(s.calls[i]) ==> !s.calls[i].stage.Added?)
  {
    Reachable(capacity, overlap, events);
    var s := Exec(Init(capacity, overlap), events);
    forall i | 0 <= i < |s.runs| ensures s.runs[i].phase.Finished? {
      AtLeast(s.runs, i, UnfinishedW);
    }
    forall i | 0 <= i < |s.calls| && Launching(s.calls[i]) ensures !s.calls[i].stage.Added? {
      AtLeast(s.calls, i, AddedW);
    }
    Vanishes(s.runs, PermitW);
    Vanishes(s.runs, LiveW);
  }

  /** A finishing invocation never over-releases the limiter or the wait group. */
  lemma {:induction false} FinishingNeverPanics(capacity: Option<nat>, overlap: bool, events: seq<Event>, i: nat)
    requires i < |Exec(Init(capacity, overlap), events).runs|
    ensures var s := Exec(Init(capacity, overlap), events);
            && (s.limited && s.runs[i].phase.Ended? ==> 0 < s.sem.inFlight)
            && (!s.runs[i].phase.Finished? ==> 0 < s.wg)
  {
    Reachable(capacity, overlap, events);
    var s := Exec(Init(capacity, overlap), events);
    AtLeast(s.runs, i, PermitW);
    AtLeast(s.runs, i, UnfinishedW);
  }

  // ---------------------------------------------------------------------
  // Every launch comes to one invocation, and every invocation to its job's body
  // ---------------------------------------------------------------------

  /** A launch whose invocation has not been spawned yet. */
  function UnspawnedW(c: Call): nat { if c.due != [] && (c.stage.Rescheduled? || c.stage.Added?) then 1 else 0 }

  lemma SpawnsCounted(s: Sys, i: nat, stage: Stage)
    requires |s.launches| == |s.runs| + Total(s.calls, UnspawnedW)
    ensures var t := CallStep(s, i, stage);
            |t.launches| == |t.runs| + Total(t.calls, UnspawnedW)
  {
    if i < |s.calls| {
      Update(s.calls, i, CallStep(s, i, stage).calls[i], UnspawnedW);
    }
  }

  lemma SpawnsKept(s: Sys, e: Event)
    requires |s.launches| == |s.runs| + Total(s.calls, UnspawnedW)
    ensures var t := Step(s, e);
            |t.launches| == |t.runs| + Total(t.calls, UnspawnedW)
  {
    match e
    case DoSchedule(_, _) =>
    case DoUnschedule(_) =>
    case StartRunDue(now, due) => Append(s.calls, Call(now, due, Scanning), UnspawnedW);
    case OfCall(i, stage) => SpawnsCounted(s, i, stage);
    case OfRun(i, phase, cancelled) => SpawnsUntouched(s, i, phase, cancelled);
  }

  lemma SpawnsUntouched(s: Sys, i: nat, phase: Phase, cancelled: bool)
    ensures var t := RunStep(s, i, phase, cancelled);
            t.calls == s.calls && |t.runs| == |s.runs| && t.launches == s.launches
  {
  }

  /** Every launch is an invocation, spawned or about to be. */
  lemma {:induction false} LaunchesAreSpawned(capacity: Option<nat>, overlap: bool, events: seq<Event>)
    ensures var s := Exec(Init(capacity, overlap), events);
            |s.launches| == |s.runs| + Total(s.calls, UnspawnedW)
  {
    if events != [] {
      LaunchesAreSpawned(capacity, overlap, events[..|events| - 1]);
      SpawnsKept(Exec(Init(capacity, overlap), events[..|events| - 1]), events[|events| - 1]);
    }
  }

  /** The invocation has been in its body at some moment of the run. */
  ghost predicate WasInBody(s: Sys, events: seq<Event>, i: nat) {
    var t := Exec(s, events);
    (i < |t.runs| && t.runs[i].phase.Body?) || (events != [] && WasInBody(s, events[..|events| - 1], i))
  }

  predicate WasCancelled(events: seq<Event>, i: nat) {
    OfRun(i, Starting, true) in events || OfRun(i, Waiting, true) in events
  }

  predicate PastBody(r: Invocation) {
    r.phase.Ended? || r.phase.Clearing? || r.phase.Retiring? || r.phase.Finished?
  }

  /** How one step changes an invocation that was there before it. */
  ghost predicate Moved(s: Sys, e: Event, t: Sys, i: nat)
    requires i < |t.runs|
  {
    if i >= |s.runs| then t.runs[i].phase.Starting?
    else if t.runs[i] == s.runs[i] then true
    else e.OfRun? && e.run == i && t.runs[i] == RunStep(s, i, s.runs[i].phase, e.cancelled).runs[i]
         && e.phase == s.runs[i].phase
  }

  lemma MovedByCall(s: Sys, i: nat, stage: Stage, k: nat)
    requires k < |CallStep(s, i, stage).runs|
    ensures Moved(s, OfCall(i, stage), CallStep(s, i, stage), k)
  {
  }

  lemma MovedByRun(s: Sys, i: nat, phase: Phase, cancelled: bool, k: nat)
    requires k < |RunStep(s, i, phase, cancelled).runs|
    ensures Moved(s, OfRun(i, phase, cancelled), RunStep(s, i, phase, cancelled), k)
  {
  }

  lemma MovedByStep(s: Sys, e: Event, k: nat)
    requires k < |Step(s, e).runs|
    ensures Moved(s, e, Step(s, e), k)
  {
    match e
    case DoSchedule(_, _) =>
    case DoUnschedule(_) =>
    case StartRunDue(_, _) =>
    case OfCall(i, stage) => MovedByCall(s, i, stage, k);
    case OfRun(i, phase, cancelled) => MovedByRun(s, i, phase, cancelled, k);
  }

  lemma PastBodyBy(s: Sys, e: Event, t: Sys, i: nat)
    requires i < |t.runs| && Moved(s, e, t, i) && PastBody(t.runs[i])
    ensures i < |s.runs|
    ensures PastBody(s.runs[i]) || s.runs[i].phase.Body?
            || (s.limited && e == OfRun(i, Starting, true))
            || (s.runs[i].phase.Waiting? && e == OfRun(i, Waiting, true))
  {
  }

  lemma NoneWait(s: Sys, e: Event, t: Sys, i: nat)
    requires i < |t.runs| && Moved(s, e, t, i) && !s.limited && (i < |s.runs| ==> !s.runs[i].phase.Waiting?)
    ensures !t.runs[i].phase.Waiting?
  {
  }

  lemma {:induction false} OnlyLimitedRunsWait(overlap: bool, events: seq<Event>, i: nat)
    requires i < |Exec(Init(None, overlap), events).runs|
    ensures !Exec(Init(None, overlap), events).runs[i].phase.Waiting?
  {
    if events != [] {
      var front, e := events[..|events| - 1], events[|events| - 1];
      var s := Exec(Init(None, overlap), front);
      MovedByStep(s, e, i);
      Reachable(None, overlap, front);
      if i < |s.runs| { OnlyLimitedRunsWait(overlap, front, i); }
      NoneWait(s, e, Step(s, e), i);
    }
  }

  /** An invocation ends, and is waited for, only after its job's body has run, unless
      it needed a permit and its context ended before it had one. */
  lemma {:induction false} InvocationsRunTheirBody(capacity: Option<nat>, overlap: bool, events: seq<Event>, i: nat)
    requires var s := Exec(Init(capacity, overlap), events);
             i < |s.runs| && PastBody(s.runs[i])
    ensures WasInBody(Init(capacity, overlap), events, i) || (capacity.Some? && WasCancelled(events, i))
  {
    var front := events[..|events| - 1];
    var s := Exec(Init(capacity, overlap), front);
    MovedByStep(s, events[|events| - 1], i);
    PastBodyBy(s, events[|events| - 1], Step(s, events[|events| - 1]), i);
    Reachable(capacity, overlap, front);
    if PastBody(s.runs[i]) {
      InvocationsRunTheirBody(capacity, overlap, front, i);
    } else if s.runs[i].phase.Body? {
      assert WasInBody(Init(capacity, overlap), front, i);
    } else if capacity.None? {
      OnlyLimitedRunsWait(overlap, front, i);
    }
  }

  /** An invocation that waits gets its permit exactly when the others leave one. */
  lemma {:induction false} PermitIff(capacity: nat, overlap: bool, events: seq<Event>, i: nat, cancelled: bool)
    requires var s := Exec(Init(Some(capacity), overlap), events);
             i < |s.runs| && s.runs[i].phase.Waiting?
    ensures var s := Exec(Init(Some(capacity), overlap), events);
            var t := Step(s, OfRun(i, Waiting, cancelled));
            t.runs == s.runs[i := Invocation(s.runs[i].entry,
                                             if Total(s.runs, PermitW) < capacity then Permitted
                                             else if cancelled then Clearing
                                             else Waiting)]
  {
    Reachable(Some(capacity), overlap, events);
  }

  // ---------------------------------------------------------------------
  // Nobody is stuck
  // ---------------------------------------------------------------------

  lemma {:induction false} OneThenMore(s: Sys, e: Event, more: seq<Event>)
    ensures Exec(s, [e] + more) == Exec(Step(s, e), more)
  {
    if more == [] {
      Unroll(s, [], e);
      assert [e] + more == [] + [e];
    } else {
      var front, last := more[..|more| - 1], more[|more| - 1];
      OneThenMore(s, e, front);
      Unroll(s, [e] + front, last);
      Unroll(Step(s, e), front, last);
      assert [e] + more == [e] + front + [last] && more == front + [last];
    }
  }

  lemma Unroll(s: Sys, events: seq<Event>, e: Event)
    ensures Exec(s, events + [e]) == Step(Exec(s, events), e)
  {
    assert (events + [e])[..|events|] == events;
  }

  /** The steps an invocation that is not waiting for a permit has left to take. */
  function StepsLeft(phase: Phase): nat {
    match phase
    case Permitted => 5
    case Body => 4
    case Ended => 3
    case Clearing => 2
    case Retiring => 1
    case _ => 0
  }

  lemma RunMovesOn(s: Sys, i: nat)
    requires Inv(s) && i < |s.runs| && 0 < StepsLeft(s.runs[i].phase)
    ensures var t := RunStep(s, i, s.runs[i].phase, false);
            && |t.runs| == |s.runs| && t.runs == s.runs[i := Invocation(s.runs[i].entry, t.runs[i].phase)]
            && StepsLeft(t.runs[i].phase) == StepsLeft(s.runs[i].phase) - 1
            && (t.runs[i].phase.Finished? <==> s.runs[i].phase.Retiring?) && t.calls == s.calls
  {
    AtLeast(s.runs, i, PermitW);
    AtLeast(s.runs, i, UnfinishedW);
  }

  /** An invocation that is past its acquire needs nobody else to get to its end. */
  lemma {:induction false} InvocationCanFinish(s: Sys, i: nat) returns (more: seq<Event>)
    requires Inv(s) && i < |s.runs| && 0 < StepsLeft(s.runs[i].phase)
    ensures var t := Exec(s, more);
            && Inv(t) && t.runs == s.runs[i := Invocation(s.runs[i].entry, Finished)] && t.calls == s.calls
    decreases StepsLeft(s.runs[i].phase)
  {
    var e := OfRun(i, s.runs[i].phase, false);
    var t := Step(s, e);
    RunMovesOn(s, i);
    StepKeepsInv(s, e);
    if t.runs[i].phase.Finished? {
      more := [];
    } else {
      more := InvocationCanFinish(t, i);
    }
    OneThenMore(s, e, more);
    more := [e] + more;
  }

  function CallWork(c: Call): nat {
    4 * |c.due| - if c.stage.Scanning? || c.due == [] then 0 else if c.stage.Won? then 1
                  else if c.stage.Rescheduled? then 2 else 3
  }

  lemma CallMovesOn(s: Sys, i: nat)
    requires Inv(s) && i < |s.calls| && s.calls[i].due != []
    ensures var t := CallStep(s, i, s.calls[i].stage);
            |t.calls| == |s.calls| && CallWork(t.calls[i]) < CallWork(s.calls[i])
  {
    assert Listed(s.calls[i], |s.core.entries|);
  }

  /** A RunDue call needs nobody else to get through its list and return. */
  lemma {:induction false} RunDueCanReturn(s: Sys, i: nat) returns (more: seq<Event>)
    requires Inv(s) && i < |s.calls|
    ensures var t := Exec(s, more);
            Inv(t) && |t.calls| == |s.calls| && t.calls[i].due == []
    decreases CallWork(s.calls[i])
  {
    if s.calls[i].due == [] { return []; }
    var e := OfCall(i, s.calls[i].stage);
    CallMovesOn(s, i);
    StepKeepsInv(s, e);
    more := RunDueCanReturn(Step(s, e), i);
    OneThenMore(s, e, more);
    more := [e] + more;
  }

  // ---------------------------------------------------------------------
  // Launches against due times, however RunDue calls overlap
  // ---------------------------------------------------------------------

  ghost predicate ListedInTime(c: Call, firsts: seq<int>) {
    forall k :: 0 <= k < |c.due| ==> c.due[k] < |firsts| && firsts[c.due[k]] <= c.now
  }

  /** Neither a due entry nor a listed one comes before its first due time. */
  ghost predicate Punctual(s: Sys) {
    && |s.firsts| == |s.core.entries|
    && (forall id :: 0 <= id < |s.firsts| && s.core.entries[id].nextDue != 0 ==>
          s.firsts[id] <= s.core.entries[id].nextDue)
    && (forall i :: 0 <= i < |s.calls| ==> ListedInTime(s.calls[i], s.firsts))
    && (forall a :: 0 <= a < |s.launches| ==>
          s.launches[a].entry < |s.firsts| && s.firsts[s.launches[a].entry] <= s.launches[a].at)
  }

  lemma PunctualStart(s: Sys, now: int, due: seq<nat>)
    requires Punctual(s) && Collected(s.core, now, due)
    ensures Punctual(s.(calls := s.calls + [Call(now, due, Scanning)]))
  {
    forall k | 0 <= k < |due| ensures due[k] < |s.firsts| && s.firsts[due[k]] <= now {
      assert due[k] in due;
    }
  }

  /** A call that goes on without launching. */
  lemma PunctualSame(s: Sys, t: Sys, i: nat)
    requires Punctual(s) && t.firsts == s.firsts && t.launches == s.launches
    requires |t.core.entries| == |s.core.entries|
    requires forall id :: 0 <= id < |s.firsts| ==> t.core.entries[id].nextDue == s.core.entries[id].nextDue
    requires i < |s.calls| && |t.calls| == |s.calls| && t.calls == s.calls[i := t.calls[i]]
    requires t.calls[i].now == s.calls[i].now && s.calls[i].due != []
    requires t.calls[i].due == s.calls[i].due || t.calls[i].due == s.calls[i].due[1..]
    ensures Punctual(t)
  {
    assert ListedInTime(s.calls[i], s.firsts);
    assert ListedInTime(t.calls[i], t.firsts);
  }

  lemma PunctualReschedule(s: Sys, i: nat)
    requires Punctual(s)
    ensures Punctual(CallStep(s, i, Won))
  {
    if i < |s.calls| {
      assert ListedInTime(s.calls[i], s.firsts);
    }
  }

  lemma PunctualOther(s: Sys, i: nat, stage: Stage)
    requires Punctual(s) && !stage.Won?
    ensures Punctual(CallStep(s, i, stage))
  {
    if i < |s.calls| && s.calls[i].due != [] && s.calls[i].stage == stage && s.calls[i].due[0] < |s.core.entries| {
      PunctualSame(s, CallStep(s, i, stage), i);
    }
  }

  lemma PunctualCall(s: Sys, i: nat, stage: Stage)
    requires Punctual(s)
    ensures Punctual(CallStep(s, i, stage))
  {
    if stage.Won? { PunctualReschedule(s, i); } else { PunctualOther(s, i, stage); }
  }

  lemma PunctualRun(s: Sys, i: nat, phase: Phase, cancelled: bool)
    requires Punctual(s)
    ensures Punctual(RunStep(s, i, phase, cancelled))
  {
  }

  lemma PunctualKept(s: Sys, e: Event)
    requires Punctual(s)
    ensures Punctual(Step(s, e))
  {
    match e
    case DoSchedule(_, _) =>
    case DoUnschedule(_) =>
    case StartRunDue(now, due) => if Collected(s.core, now, due) { PunctualStart(s, now, due); }
    case OfCall(i, stage) => PunctualCall(s, i, stage);
    case OfRun(i, phase, cancelled) => PunctualRun(s, i, phase, cancelled);
  }

  /** No entry is launched before the time it was first due, even by a RunDue call
      whose list is out of date; a periodic entry is due again later than that. */
  lemma {:induction false} NoLaunchIsEarly(capacity: Option<nat>, overlap: bool, events: seq<Event>)
    ensures Punctual(Exec(Init(capacity, overlap), events))
  {
    if events != [] {
      NoLaunchIsEarly(capacity, overlap, events[..|events| - 1]);
      PunctualKept(Exec(Init(capacity, overlap), events[..|events| - 1]), events[|events| - 1]);
    }
  }

  // ---------------------------------------------------------------------
  // What the launches so far say of the next one, however RunDue calls overlap
  // ---------------------------------------------------------------------

  ghost predicate NeverLaunched(launches: seq<Launch>, id: nat) {
    forall a :: 0 <= a < |launches| ==> launches[a].entry != id
  }

  ghost predicate LastLaunch(launches: seq<Launch>, a: nat, id: nat) {
    && a < |launches| && launches[a].entry == id
    && forall b :: a < b < |launches| ==> launches[b].entry != id
  }

  /** Until it is launched an entry is due when it was first to be; after that a
      periodic entry is due one interval after its last launch, a one-shot never. */
  ghost predicate DueByLaunches(e: JobEntry, first: int, launches: seq<Launch>, id: nat) {
    && (NeverLaunched(launches, id) ==> e.nextDue == first)
    && (forall a: nat :: LastLaunch(launches, a, id) ==>
          && (e.interval > 0 ==> e.nextDue == launches[a].at + e.interval)
          && (e.interval <= 0 ==> e.nextDue == 0))
  }

  ghost predicate Determined(s: Sys) {
    && |s.firsts| == |s.core.entries|
    && (forall a :: 0 <= a < |s.launches| ==> s.launches[a].entry < |s.core.entries|)
    && (forall id: nat :: id < |s.core.entries| ==>
          DueByLaunches(s.core.entries[id], s.firsts[id], s.launches, id))
  }

  lemma LastStands(launches: seq<Launch>, l: Launch, id: nat)
    requires l.entry != id
    ensures NeverLaunched(launches + [l], id) <==> NeverLaunched(launches, id)
    ensures forall a: nat :: LastLaunch(launches + [l], a, id) <==> LastLaunch(launches, a, id)
  {
    forall a: nat | LastLaunch(launches + [l], a, id) ensures LastLaunch(launches, a, id) {
      forall b | a < b < |launches| ensures launches[b].entry != id {
        assert (launches + [l])[b] == launches[b];
      }
    }
    if NeverLaunched(launches + [l], id) {
      forall a | 0 <= a < |launches| ensures launches[a].entry != id {
        assert (launches + [l])[a] == launches[a];
      }
    }
  }

  lemma LaunchIsLast(launches: seq<Launch>, l: Launch)
    ensures !NeverLaunched(launches + [l], l.entry)
    ensures forall a: nat :: LastLaunch(launches + [l], a, l.entry) <==> a == |launches|
  {
    assert (launches + [l])[|launches|] == l;
  }

  lemma DueStands(e: JobEntry, first: int, launches: seq<Launch>, l: Launch, id: nat)
    requires DueByLaunches(e, first, launches, id) && l.entry != id
    ensures DueByLaunches(e, first, launches + [l], id)
  {
    LastStands(launches, l, id);
  }

  lemma DueAdvanced(e: JobEntry, first: int, launches: seq<Launch>, l: Launch)
    ensures DueByLaunches(Advanced(e, l.at), first, launches + [l], l.entry)
  {
    LaunchIsLast(launches, l);
  }

  lemma DeterminedReschedule(s: Sys, i: nat)
    requires Determined(s)
    ensures Determined(CallStep(s, i, Won))
  {
    if i < |s.calls| && s.calls[i].due != [] && s.calls[i].stage.Won? && s.calls[i].due[0] < |s.core.entries| {
      var t := CallStep(s, i, Won);
      var l := Launch(s.calls[i].due[0], s.calls[i].now);
      forall id: nat | id < |t.core.entries|
        ensures DueByLaunches(t.core.entries[id], t.firsts[id], t.launches, id)
      {
        if id == l.entry {
          DueAdvanced(s.core.entries[id], s.firsts[id], s.launches, l);
        } else {
          DueStands(s.core.entries[id], s.firsts[id], s.launches, l, id);
        }
      }
    }
  }

  /** No due time changes and nothing is launched. */
  lemma DeterminedSame(s: Sys, t: Sys)
    requires Determined(s) && t.firsts == s.firsts && t.launches == s.launches
    requires |t.core.entries| == |s.core.entries|
    requires forall id :: 0 <= id < |s.core.entries| ==>
               && t.core.entries[id].nextDue == s.core.entries[id].nextDue
               && t.core.entries[id].interval == s.core.entries[id].interval
    ensures Determined(t)
  {
  }

  lemma DeterminedRegister(s: Sys, job: Job, now: int)
    requires Determined(s)
    ensures Determined(Step(s, DoSchedule(job, now)))
  {
  }

  lemma DeterminedKept(s: Sys, e: Event)
    requires Determined(s)
    ensures Determined(Step(s, e))
  {
    match e
    case DoSchedule(job, now) => DeterminedRegister(s, job, now);
    case DoUnschedule(_) => DeterminedSame(s, Step(s, e));
    case StartRunDue(_, _) => DeterminedSame(s, Step(s, e));
    case OfCall(i, stage) => if stage.Won? { DeterminedReschedule(s, i); } else { DeterminedOther(s, i, stage); }
    case OfRun(i, phase, cancelled) => DeterminedRun(s, i, phase, cancelled);
  }

  lemma DeterminedOther(s: Sys, i: nat, stage: Stage)
    requires Determined(s) && !stage.Won?
    ensures Determined(CallStep(s, i, stage))
  {
    DeterminedSame(s, CallStep(s, i, stage));
  }

  lemma DeterminedRun(s: Sys, i: nat, phase: Phase, cancelled: bool)
    requires Determined(s)
    ensures Determined(RunStep(s, i, phase, cancelled))
  {
    DeterminedSame(s, RunStep(s, i, phase, cancelled));
  }

  lemma {:induction false} DeterminedThroughout(s: Sys, more: seq<Event>)
    requires Determined(s)
    ensures Determined(Exec(s, more))
  {
    if more != [] {
      DeterminedThroughout(s, more[..|more| - 1]);
      DeterminedKept(Exec(s, more[..|more| - 1]), more[|more| - 1]);
    }
  }

  /** In every run the launches made determine the next due time of every entry. */
  lemma {:induction false} NextDueIsDetermined(capacity: Option<nat>, overlap: bool, events: seq<Event>, id: nat)
    requires id < |Exec(Init(capacity, overlap), events).core.entries|
    ensures var s := Exec(Init(capacity, overlap), events);
            var e := s.core.entries[id];
            && id < |s.firsts|
            && (NeverLaunched(s.launches, id) ==> e.nextDue == s.firsts[id])
            && (forall a: nat :: LastLaunch(s.launches, a, id) ==>
                  e.nextDue == if e.interval > 0 then s.launches[a].at + e.interval else 0)
  {
    DeterminedThroughout(Init(capacity, overlap), events);
  }

  ghost predicate Stays(s: Sys, t: Sys, id: nat)
    requires id < |s.core.entries| && |s.firsts| == |s.core.entries|
  {
    && |s.core.entries| <= |t.core.entries| == |t.firsts| && t.firsts[id] == s.firsts[id]
    && t.core.entries[id].name == s.core.entries[id].name
    && t.core.entries[id].interval == s.core.entries[id].interval
  }

  lemma StaysByCall(s: Sys, i: nat, stage: Stage, id: nat)
    requires |s.firsts| == |s.core.entries| && id < |s.core.entries|
    ensures Stays(s, CallStep(s, i, stage), id)
  {
  }

  lemma StaysByRun(s: Sys, i: nat, phase: Phase, cancelled: bool, id: nat)
    requires |s.firsts| == |s.core.entries| && id < |s.core.entries|
    ensures Stays(s, RunStep(s, i, phase, cancelled), id)
  {
  }

  lemma EntryStays(s: Sys, e: Event, id: nat)
    requires |s.firsts| == |s.core.entries| && id < |s.core.entries|
    ensures Stays(s, Step(s, e), id)
  {
    match e
    case DoSchedule(_, _) =>
    case DoUnschedule(_) =>
    case StartRunDue(_, _) =>
    case OfCall(i, stage) => StaysByCall(s, i, stage, id);
    case OfRun(i, phase, cancelled) => StaysByRun(s, i, phase, cancelled, id);
  }

  lemma {:induction false} EntriesStay(s: Sys, more: seq<Event>, id: nat)
    requires |s.firsts| == |s.core.entries| && id < |s.core.entries|
    ensures Stays(s, Exec(s, more), id)
  {
    if more != [] {
      EntriesStay(s, more[..|more| - 1], id);
      EntryStays(Exec(s, more[..|more| - 1]), more[|more| - 1], id);
    }
  }

  /** From Schedule on, through any run: while the job is registered and not running,
      every list collected holds it exactly when its time has come, which is the time
      it was scheduled for and, once launched, an interval after its last launch. */
  lemma {:induction false} JobIsCollectedIff(capacity: Option<nat>, overlap: bool, before: seq<Event>,
                                             job: Job, now: int, more: seq<Event>, at: int, due: seq<nat>)
    requires job.name != "" && job.hasFunc && (job.interval > 0 || job.at != 0)
    requires var s := Exec(Init(capacity, overlap), before);
             var t := Exec(Step(s, DoSchedule(job, now)), more);
             var id := |s.core.entries|;
             && job.name in t.core.jobs && t.core.jobs[job.name] == id
             && id < |t.core.entries| && !t.core.entries[id].running && Collected(t.core, at, due)
    ensures var s := Exec(Init(capacity, overlap), before);
            var t := Exec(Step(s, DoSchedule(job, now)), more);
            var id := |s.core.entries|;
            && (NeverLaunched(t.launches, id) ==>
                  var first := if job.at != 0 then job.at else now + job.interval;
                  id in due <==> first != 0 && first <= at)
            && (forall a: nat :: LastLaunch(t.launches, a, id) ==>
                  var next := t.launches[a].at + job.interval;
                  id in due <==> job.interval > 0 && next != 0 && next <= at)
  {
    var s := Exec(Init(capacity, overlap), before);
    var u := Step(s, DoSchedule(job, now));
    var t := Exec(u, more);
    var id := |s.core.entries|;
    DeterminedThroughout(Init(capacity, overlap), before);
    DeterminedKept(s, DoSchedule(job, now));
    DeterminedThroughout(u, more);
    assert u.core.entries[id] == JobEntry(job.name, job.interval, u.firsts[id], false);
    EntriesStay(u, more, id);
    assert id in due <==> IsDue(t.core, id, at);
  }

  // ---------------------------------------------------------------------
  // Spacing of launches, when RunDue calls do not overlap
  // ---------------------------------------------------------------------

  /** What a call may still launch. */
  function Pending(c: Call): seq<nat> {
    if c.due != [] && (c.stage.Rescheduled? || c.stage.Added?) then c.due[1..] else c.due
  }

  /** The next due time of a launched entry respects its interval; a launched
      one-shot is never due again. */
  predicate Respected(e: JobEntry, at: int) {
    e.nextDue == 0 || (e.interval > 0 && at + e.interval <= e.nextDue)
  }

  ghost predicate Spaced(s: Sys) {
    && (forall i :: 0 <= i < |s.calls| - 1 ==> s.calls[i].due == [])
    && (forall i: nat, id: nat {:trigger id in Pending(s.calls[i])} :: i < |s.calls| && id in Pending(s.calls[i]) ==>
          id < |s.core.entries| && s.core.entries[id].nextDue != 0 && s.core.entries[id].nextDue <= s.calls[i].now)
    && (forall a :: 0 <= a < |s.launches| ==>
          s.launches[a].entry < |s.core.entries| && Respected(s.core.entries[s.launches[a].entry], s.launches[a].at))
    && (forall a, b :: 0 <= a < b < |s.launches| && s.launches[a].entry == s.launches[b].entry ==>
          Interval(s, s.launches[a].entry) > 0
          && s.launches[a].at + Interval(s, s.launches[a].entry) <= s.launches[b].at)
  }

  function Interval(s: Sys, id: nat): int {
    if id < |s.core.entries| then s.core.entries[id].interval else 0
  }

  /** Nothing is launched or rescheduled and no call gains work. */
  lemma SpacedSame(s: Sys, t: Sys)
    requires Spaced(s) && t.launches == s.launches && |t.core.entries| >= |s.core.entries|
    requires forall id :: 0 <= id < |s.core.entries| ==>
               && t.core.entries[id].nextDue == s.core.entries[id].nextDue
               && t.core.entries[id].interval == s.core.entries[id].interval
    requires |t.calls| == |s.calls|
    requires forall i :: 0 <= i < |s.calls| ==>
               t.calls[i].now == s.calls[i].now && (s.calls[i].due == [] ==> t.calls[i].due == [])
               && forall id: nat :: id in Pending(t.calls[i]) ==> id in Pending(s.calls[i])
    ensures Spaced(t)
  {
    forall i: nat, id: nat | i < |t.calls| && id in Pending(t.calls[i])
      ensures id < |t.core.entries| && t.core.entries[id].nextDue != 0 && t.core.entries[id].nextDue <= t.calls[i].now
    {
      assert id in Pending(s.calls[i]);
    }
  }

  lemma SpacedCall(s: Sys, t: Sys, i: nat)
    requires Spaced(s) && t.launches == s.launches && |t.core.entries| == |s.core.entries|
    requires forall id :: 0 <= id < |s.core.entries| ==>
               && t.core.entries[id].nextDue == s.core.entries[id].nextDue
               && t.core.entries[id].interval == s.core.entries[id].interval
    requires i < |s.calls| && |t.calls| == |s.calls| && t.calls == s.calls[i := t.calls[i]]
    requires t.calls[i].now == s.calls[i].now && s.calls[i].due != []
    requires Pending(t.calls[i]) == Pending(s.calls[i]) || Pending(t.calls[i]) == s.calls[i].due[1..]
    ensures Spaced(t)
  {
    forall id: nat | id in Pending(t.calls[i]) ensures id in Pending(s.calls[i]) {
    }
    SpacedSame(s, t);
  }

  lemma SpacedStart(s: Sys, now: int, due: seq<nat>)
    requires Spaced(s) && Collected(s.core, now, due) && AllReturned(s.calls)
    ensures Spaced(s.(calls := s.calls + [Call(now, due, Scanning)]))
  {
  }

  lemma SpacedReschedule(s: Sys, i: nat)
    requires Spaced(s) && Shape(s)
    requires i < |s.calls| && s.calls[i].due != [] && s.calls[i].stage.Won?
    ensures Spaced(CallStep(s, i, Won))
  {
    var t := CallStep(s, i, Won);
    var c := s.calls[i];
    var id := c.due[0];
    assert id in Pending(c);
    forall j: nat, k: nat | j < |t.calls| && k in Pending(t.calls[j])
      ensures k < |t.core.entries| && t.core.entries[k].nextDue != 0 && t.core.entries[k].nextDue <= t.calls[j].now
    {
      assert j == i && k in Pending(c) && k != id;
    }
    forall a | 0 <= a < |t.launches|
      ensures t.launches[a].entry < |t.core.entries| && Respected(t.core.entries[t.launches[a].entry], t.launches[a].at)
    {
      if a < |s.launches| {
        assert Respected(s.core.entries[s.launches[a].entry], s.launches[a].at);
      }
    }
    forall a, b | 0 <= a < b < |t.launches| && t.launches[a].entry == t.launches[b].entry
      ensures Interval(t, t.launches[a].entry) > 0
      ensures t.launches[a].at + Interval(t, t.launches[a].entry) <= t.launches[b].at
    {
      assert Respected(s.core.entries[s.launches[a].entry], s.launches[a].at);
      assert Interval(t, t.launches[a].entry) == Interval(s, s.launches[a].entry);
    }
  }

  lemma SpacedKeptByCall(s: Sys, i: nat, stage: Stage)
    requires Spaced(s) && Shape(s)
    ensures Spaced(CallStep(s, i, stage))
  {
    if i < |s.calls| && s.calls[i].due != [] && s.calls[i].stage == stage && s.calls[i].due[0] < |s.core.entries| {
      if stage.Won? {
        SpacedReschedule(s, i);
      } else {
        SpacedCall(s, CallStep(s, i, stage), i);
      }
    }
  }

  lemma SpacedKeptByRun(s: Sys, i: nat, phase: Phase, cancelled: bool)
    requires Spaced(s)
    ensures Spaced(RunStep(s, i, phase, cancelled))
  {
    SpacedSame(s, RunStep(s, i, phase, cancelled));
  }

  lemma SpacedKept(s: Sys, e: Event)
    requires Spaced(s) && Shape(s) && !s.overlap
    ensures Spaced(Step(s, e))
  {
    match e
    case DoSchedule(_, _) => SpacedSame(s, Step(s, e));
    case DoUnschedule(_) => SpacedSame(s, Step(s, e));
    case StartRunDue(now, due) => if Collected(s.core, now, due) && AllReturned(s.calls) { SpacedStart(s, now, due); }
    case OfCall(i, stage) => SpacedKeptByCall(s, i, stage);
    case OfRun(i, phase, cancelled) => SpacedKeptByRun(s, i, phase, cancelled);
  }

  lemma {:induction false} SpacedReachable(capacity: Option<nat>, events: seq<Event>)
    ensures Spaced(Exec(Init(capacity, false), events))
  {
    if events != [] {
      SpacedReachable(capacity, events[..|events| - 1]);
      Reachable(capacity, false, events[..|events| - 1]);
      SpacedKept(Exec(Init(capacity, false), events[..|events| - 1]), events[|events| - 1]);
    }
  }

  lemma SpacedMeans(s: Sys, a: nat, b: nat)
    requires Spaced(s) && a < b < |s.launches| && s.launches[a].entry == s.launches[b].entry
    ensures var id := s.launches[a].entry;
            && id < |s.core.entries| && s.core.entries[id].interval > 0
            && s.launches[b].at - s.launches[a].at >= s.core.entries[id].interval
  {
  }

  /** When RunDue calls do not overlap, two launches of one entry mean that it is
      periodic and that they are at least its interval apart; a one-shot entry is
      launched at most once. */
  lemma {:induction false} LaunchesAreSpaced(capacity: Option<nat>, events: seq<Event>, a: nat, b: nat)
    requires var launches := Exec(Init(capacity, false), events).launches;
             a < b < |launches| && launches[a].entry == launches[b].entry
    ensures var s := Exec(Init(capacity, false), events);
            var id := s.launches[a].entry;
            && id < |s.core.entries| && s.core.entries[id].interval > 0
            && s.launches[b].at - s.launches[a].at >= s.core.entries[id].interval
  {
    SpacedReachable(capacity, events);
    SpacedMeans(Exec(Init(capacity, false), events), a, b);
  }

  // ---------------------------------------------------------------------
  // A call launches all that it listed, when calls do not overlap
  // ---------------------------------------------------------------------

  function Launches(ids: seq<nat>, now: int): seq<Launch> {
    seq(|ids|, k requires 0 <= k < |ids| => Launch(ids[k], now))
  }

  /** A RunDue call as it was made: its list and clock reading, how many calls came
      before it and what had been launched by then. */
  datatype Made = Made(due: seq<nat>, now: int, index: nat, base: seq<Launch>)

  /** How far the call is through its list, and how much of it is launched. */
  function At(m: Made, c: Call): int { |m.due| - |c.due| }
  function LaunchedBy(m: Made, c: Call): int {
    At(m, c) + if c.stage.Rescheduled? || c.stage.Added? then 1 else 0
  }

  /** The call has launched its list up to here, and nobody has claimed the rest. */
  ghost predicate Through(m: Made, c: Call, entries: seq<JobEntry>, launches: seq<Launch>) {
    && 0 <= At(m, c) <= |m.due| && c.due == m.due[At(m, c)..] && c.now == m.now
    && (c.due == [] ==> c.stage.Scanning?)
    && launches == m.base + Launches(m.due[..LaunchedBy(m, c)], m.now)
    && (forall k :: 0 <= k < |c.due| && (0 < k || c.stage.Scanning?) ==>
          c.due[k] < |entries| && !entries[c.due[k]].running)
    && (forall k, l :: 0 <= k < l < |c.due| ==> c.due[k] != c.due[l])
  }

  ghost predicate InTurn(s: Sys, m: Made) {
    && |s.calls| == m.index + 1
    && (forall i :: 0 <= i < m.index ==> s.calls[i].due == [])
    && Through(m, s.calls[m.index], s.core.entries, s.launches)
  }

  /** The call is in turn until the next one is made. */
  ghost predicate Served(s: Sys, m: Made) {
    InTurn(s, m) || m.index + 1 < |s.calls|
  }

  lemma LaunchedNext(m: Made, n: nat)
    requires n < |m.due|
    ensures Launches(m.due[..n + 1], m.now) == Launches(m.due[..n], m.now) + [Launch(m.due[n], m.now)]
  {
  }

  lemma ThroughClaim(m: Made, c: Call, entries: seq<JobEntry>, launches: seq<Launch>)
    requires Through(m, c, entries, launches) && c.due != [] && c.stage.Scanning?
    ensures c.due[0] < |entries| && !entries[c.due[0]].running
    ensures Through(m, c.(stage := Won), entries[c.due[0] := entries[c.due[0]].(running := true)], launches)
  {
  }

  lemma ThroughReschedule(m: Made, c: Call, entries: seq<JobEntry>, launches: seq<Launch>)
    requires Through(m, c, entries, launches) && c.due != [] && c.stage.Won? && c.due[0] < |entries|
    ensures Through(m, c.(stage := Rescheduled), entries[c.due[0] := Advanced(entries[c.due[0]], c.now)],
                    launches + [Launch(c.due[0], c.now)])
  {
    LaunchedNext(m, At(m, c));
  }

  lemma ThroughSpawn(m: Made, c: Call, entries: seq<JobEntry>, launches: seq<Launch>)
    requires Through(m, c, entries, launches) && c.due != [] && c.stage.Added?
    ensures Through(m, c.(due := c.due[1..], stage := Scanning), entries, launches)
  {
    assert c.due[1..] == m.due[At(m, c) + 1..];
  }

  lemma InTurnByCall(s: Sys, m: Made, i: nat, stage: Stage)
    requires InTurn(s, m)
    ensures InTurn(CallStep(s, i, stage), m)
  {
    var c := s.calls[m.index];
    if i == m.index && c.due != [] && c.stage == stage && c.due[0] < |s.core.entries| {
      ThroughStep(s, m, stage);
      InTurnMoves(s, m, CallStep(s, i, stage));
    }
  }

  lemma InTurnMoves(s: Sys, m: Made, t: Sys)
    requires InTurn(s, m) && |t.calls| == |s.calls| && t.calls == s.calls[m.index := t.calls[m.index]]
    requires Through(m, t.calls[m.index], t.core.entries, t.launches)
    ensures InTurn(t, m)
  {
  }

  lemma ThroughStep(s: Sys, m: Made, stage: Stage)
    requires InTurn(s, m)
    requires var c := s.calls[m.index]; c.due != [] && c.stage == stage && c.due[0] < |s.core.entries|
    ensures var t := CallStep(s, m.index, stage);
            && |t.calls| == |s.calls| && t.calls == s.calls[m.index := t.calls[m.index]]
            && Through(m, t.calls[m.index], t.core.entries, t.launches)
  {
    var c := s.calls[m.index];
    match stage
    case Scanning => ThroughClaim(m, c, s.core.entries, s.launches);
    case Won => ThroughReschedule(m, c, s.core.entries, s.launches);
    case Rescheduled =>
    case Added => ThroughSpawn(m, c, s.core.entries, s.launches);
  }

  lemma InTurnByOthers(s: Sys, m: Made, t: Sys)
    requires InTurn(s, m) && t.calls == s.calls && t.launches == s.launches
    requires |s.core.entries| <= |t.core.entries|
    requires forall id :: 0 <= id < |s.core.entries| && !s.core.entries[id].running ==> !t.core.entries[id].running
    ensures InTurn(t, m)
  {
  }

  lemma InTurnByRun(s: Sys, m: Made, i: nat, phase: Phase, cancelled: bool)
    requires InTurn(s, m)
    ensures InTurn(RunStep(s, i, phase, cancelled), m)
  {
    InTurnByOthers(s, m, RunStep(s, i, phase, cancelled));
  }

  lemma InTurnKept(s: Sys, m: Made, e: Event)
    requires InTurn(s, m)
    ensures Served(Step(s, e), m)
  {
    match e
    case DoSchedule(_, _) => InTurnByOthers(s, m, Step(s, e));
    case DoUnschedule(_) => InTurnByOthers(s, m, Step(s, e));
    case StartRunDue(_, _) =>
    case OfCall(i, stage) => InTurnByCall(s, m, i, stage);
    case OfRun(i, phase, cancelled) => InTurnByRun(s, m, i, phase, cancelled);
  }

  lemma CallsStay(s: Sys, e: Event)
    ensures |s.calls| <= |Step(s, e).calls|
  {
  }

  lemma {:induction false} ServedThroughout(s: Sys, m: Made, more: seq<Event>)
    requires Served(s, m)
    ensures Served(Exec(s, more), m)
  {
    if more != [] {
      var t := Exec(s, more[..|more| - 1]);
      ServedThroughout(s, m, more[..|more| - 1]);
      CallsStay(t, more[|more| - 1]);
      if InTurn(t, m) { InTurnKept(t, m, more[|more| - 1]); }
    }
  }

  lemma InTurnAtFirst(s: Sys, now: int, due: seq<nat>)
    requires Collected(s.core, now, due) && AllReturned(s.calls)
    ensures InTurn(Step(s, StartRunDue(now, due)), Made(due, now, |s.calls|, s.launches))
  {
    forall k | 0 <= k < |due| ensures due[k] < |s.core.entries| && !s.core.entries[due[k]].running {
      assert due[k] in due;
    }
  }

  /** When RunDue calls do not overlap, a call wins every entry it listed: from its
      start to its return, whatever else goes on, exactly those are launched, in order. */
  lemma {:induction false} RunDueLaunchesAll(s: Sys, now: int, due: seq<nat>, more: seq<Event>)
    requires Collected(s.core, now, due) && AllReturned(s.calls)
    requires var t := Exec(Step(s, StartRunDue(now, due)), more);
             |t.calls| == |s.calls| + 1 && t.calls[|s.calls|].due == []
    ensures Exec(Step(s, StartRunDue(now, due)), more).launches == s.launches + Launches(due, now)
  {
    var m := Made(due, now, |s.calls|, s.launches);
    InTurnAtFirst(s, now, due);
    ServedThroughout(Step(s, StartRunDue(now, due)), m, more);
    TurnEnds(Exec(Step(s, StartRunDue(now, due)), more), m);
  }

  lemma TurnEnds(t: Sys, m: Made)
    requires InTurn(t, m) && t.calls[m.index].due == []
    ensures t.launches == m.base + Launches(m.due, m.now)
  {
    assert m.due[..|m.due|] == m.due;
  }

  // ---------------------------------------------------------------------
  // Exactly when a one-shot can launch twice
  // ---------------------------------------------------------------------

  lemma {:induction false} Then(s: Sys, events: seq<Event>, e: Event) returns (more: seq<Event>)
    ensures Exec(s, more) == Step(Exec(s, events), e)
  {
    more := events + [e];
    assert more[..|events|] == events;
  }

  /** One entry "once" that was due at 5, listed by two RunDue calls at time 10. */
  ghost predicate Scene(s: Sys, nextDue: int, running: bool, first: Call, launches: seq<Launch>) {
    && s.core == Core(map["once" := 0], [JobEntry("once", 0, nextDue, running)], false)
    && s.calls == [first, Call(10, [0], Scanning)] && s.launches == launches
    && (s.limited ==> s.sem.inFlight == 0 && 1 <= s.sem.capacity)
  }

  lemma {:induction false} BothCollect(capacity: Option<nat>) returns (events: seq<Event>)
    requires capacity.Some? ==> 1 <= capacity.value
    ensures Scene(Exec(Init(capacity, true), events), 5, false, Call(10, [0], Scanning), [])
    ensures Exec(Init(capacity, true), events).runs == []
  {
    var s := Init(capacity, true);
    events := Then(s, [], DoSchedule(Job("once", true, 0, 5), 0));
    var t := Exec(s, events);
    assert t.core.entries == [JobEntry("once", 0, 5, false)] && t.core.jobs == map["once" := 0];
    assert Collected(t.core, 10, [0]);
    events := Then(s, events, StartRunDue(10, [0]));
    events := Then(s, events, StartRunDue(10, [0]));
  }

  lemma FirstClaims(s: Sys)
    requires Scene(s, 5, false, Call(10, [0], Scanning), [])
    ensures var t := Step(Step(s, OfCall(0, Scanning)), OfCall(0, Won));
            Scene(t, 0, true, Call(10, [0], Rescheduled), [Launch(0, 10)]) && t.runs == s.runs
  {
    assert Scene(Step(s, OfCall(0, Scanning)), 5, true, Call(10, [0], Won), []);
  }

  lemma FirstSpawns(s: Sys)
    requires Scene(s, 0, true, Call(10, [0], Rescheduled), [Launch(0, 10)]) && s.runs == []
    ensures var t := Step(Step(s, OfCall(0, Rescheduled)), OfCall(0, Added));
            Scene(t, 0, true, Call(10, [], Scanning), [Launch(0, 10)]) && t.runs == [Invocation(0, Starting)]
  {
    var t := Step(s, OfCall(0, Rescheduled));
    assert Scene(t, 0, true, Call(10, [0], Added), [Launch(0, 10)]);
    assert Step(t, OfCall(0, Added)).calls[0].due == [];
  }

  /** The first invocation is in its body, holding a permit if there is a limiter. */
  ghost predicate FirstRuns(s: Sys) {
    && s.core == Core(map["once" := 0], [JobEntry("once", 0, 0, true)], false)
    && s.calls == [Call(10, [], Scanning), Call(10, [0], Scanning)] && s.launches == [Launch(0, 10)]
    && s.runs == [Invocation(0, Body)] && (s.limited ==> s.sem.inFlight == 1 <= s.sem.capacity)
  }

  lemma FirstWaits(s: Sys)
    requires Scene(s, 0, true, Call(10, [], Scanning), [Launch(0, 10)]) && s.runs == [Invocation(0, Starting)]
    ensures var t := RunStep(s, 0, Starting, false);
            Scene(t, 0, true, Call(10, [], Scanning), [Launch(0, 10)])
            && t.limited == s.limited && t.runs == [Invocation(0, if s.limited then Waiting else Body)]
  {
  }

  lemma FirstIsPermitted(s: Sys)
    requires Scene(s, 0, true, Call(10, [], Scanning), [Launch(0, 10)])
    requires s.runs == [Invocation(0, if s.limited then Waiting else Body)]
    ensures FirstRuns(RunStep(RunStep(s, 0, Waiting, false), 0, Permitted, false))
  {
    if s.limited {
      assert RunStep(s, 0, Waiting, false).runs == [Invocation(0, Permitted)];
    }
  }

  lemma FirstGivesBack(s: Sys)
    requires FirstRuns(s)
    ensures var t := Step(Step(s, OfRun(0, Body, false)), OfRun(0, Ended, false));
            && t.core == s.core && t.calls == s.calls && t.launches == s.launches && t.limited == s.limited
            && t.runs == [Invocation(0, Clearing)] && t.sem.capacity == s.sem.capacity
            && (t.limited ==> t.sem.inFlight == 0)
  {
  }

  lemma FirstClears(s: Sys)
    requires s.core == Core(map["once" := 0], [JobEntry("once", 0, 0, true)], false)
    requires s.runs == [Invocation(0, Clearing)]
    ensures var t := Step(s, OfRun(0, Clearing, false));
            && t.core == Core(map["once" := 0], [JobEntry("once", 0, 0, false)], false)
            && t.calls == s.calls && t.launches == s.launches && t.sem == s.sem && t.limited == s.limited
  {
  }

  lemma SecondClaims(s: Sys)
    requires Scene(s, 0, false, Call(10, [], Scanning), [Launch(0, 10)])
    ensures var t := Step(Step(s, OfCall(1, Scanning)), OfCall(1, Won));
            t.launches == [Launch(0, 10), Launch(0, 10)] && Interval(t, 0) == 0
  {
    assert Step(s, OfCall(1, Scanning)).core.entries == [JobEntry("once", 0, 0, true)];
    assert Step(s, OfCall(1, Scanning)).calls[1] == Call(10, [0], Won);
  }

  /** Two RunDue calls may list the same one-shot entry, and the second can win it
      after the first invocation has finished, with or without a limiter. */
  lemma {:induction false} OverlappingCallsLaunchTwice(capacity: Option<nat>) returns (events: seq<Event>)
    requires capacity.Some? ==> 1 <= capacity.value
    ensures var s := Exec(Init(capacity, true), events);
            s.launches == [Launch(0, 10), Launch(0, 10)] && Interval(s, 0) == 0
  {
    var s := Init(capacity, true);
    events := BothCollect(capacity);
    FirstClaims(Exec(s, events));
    events := Then(s, events, OfCall(0, Scanning));
    events := Then(s, events, OfCall(0, Won));
    FirstSpawns(Exec(s, events));
    events := Then(s, events, OfCall(0, Rescheduled));
    events := Then(s, events, OfCall(0, Added));
    FirstWaits(Exec(s, events));
    events := Then(s, events, OfRun(0, Starting, false));
    FirstIsPermitted(Exec(s, events));
    events := Then(s, events, OfRun(0, Waiting, false));
    events := Then(s, events, OfRun(0, Permitted, false));
    FirstGivesBack(Exec(s, events));
    events := Then(s, events, OfRun(0, Body, false));
    events := Then(s, events, OfRun(0, Ended, false));
    FirstClears(Exec(s, events));
    events := Then(s, events, OfRun(0, Clearing, false));
    SecondClaims(Exec(s, events));
    events := Then(s, events, OfCall(1, Scanning));
    events := Then(s, events, OfCall(1, Won));
  }

  ghost predicate LaunchesTwice(s: Sys, a: nat, b: nat) {
    a < b < |s.launches| && s.launches[a].entry == s.launches[b].entry
  }

  ghost predicate LaunchesApart(s: Sys) {
    forall a: nat, b: nat :: LaunchesTwice(s, a, b) ==>
      Interval(s, s.launches[a].entry) > 0
      && s.launches[b].at - s.launches[a].at >= Interval(s, s.launches[a].entry)
  }

  /** In every run one-shot entries launch once and periodic ones an interval
      apart exactly when RunDue calls cannot overlap, whatever the limiter. */
  lemma {:induction false} LaunchesApartIff(capacity: Option<nat>, overlap: bool)
    requires capacity.Some? ==> 1 <= capacity.value
    ensures (forall events :: LaunchesApart(Exec(Init(capacity, overlap), events))) <==> !overlap
  {
    if overlap {
      var events := OverlappingCallsLaunchTwice(capacity);
      assert LaunchesTwice(Exec(Init(capacity, overlap), events), 0, 1);
      assert !LaunchesApart(Exec(Init(capacity, overlap), events));
    } else {
      forall events ensures LaunchesApart(Exec(Init(capacity, overlap), events)) {
        forall a: nat, b: nat | LaunchesTwice(Exec(Init(capacity, overlap), events), a, b)
          ensures var s := Exec(Init(capacity, overlap), events);
                  Interval(s, s.launches[a].entry) > 0
                  && s.launches[b].at - s.launches[a].at >= Interval(s, s.launches[a].entry)
        {
          LaunchesAreSpaced(capacity, events, a, b);
        }
      }
    }
  }
}
