/** internal/errgroup: groups of goroutines that may share one semaphore.

    `Group` is one group over a semaphore object it may share with others; `Sys`
    interleaves any number of groups, Go and TryGo calls, the goroutines they
    start and Wait calls. A group's limiter is fixed before its first Go. What a
    function returns is uninterpreted.
 */
module ErrGroup {
  import opened Options
  import opened Counting
  import Limiter

  /** The first error recorded wins. */
  function Recorded(err: Option<string>, failure: Option<string>): Option<string> {
    if err.None? then failure else err
  }

  class Group {
    const sem: Limiter.Semaphore?
    var err: Option<string>
    var wg: nat

    constructor (sem: Limiter.Semaphore?)
      ensures this.sem == sem && err == None && wg == 0
    {
      this.sem := sem;
      err, wg := None, 0;
    }

    /** Go, from one wake-up of its acquire to the next: started, or sent away
        with the cancellation cause recorded, or still waiting. A context that has
        ended is refused on entering, and later only if the permit does not fit;
        without a limiter it is not looked at. */
    method GoPass(entering: bool, cancelled: Option<string>) returns (p: Limiter.Pass)
      requires sem != null ==> sem.Valid()
      modifies this, sem
      ensures sem != null ==> sem.Valid()
      ensures p.GaveUp? <==>
                sem != null && cancelled.Some? && (entering || old(sem.inFlight) == sem.capacity)
      ensures p.Acquired? <==>
                sem == null || (old(sem.inFlight) < sem.capacity && !(entering && cancelled.Some?))
      ensures wg == old(wg) + if p.Acquired? then 1 else 0
      ensures err == if p.GaveUp? && old(err).None? then cancelled else old(err)
      ensures sem != null ==> sem.inFlight == old(sem.inFlight) + if p.Acquired? then 1 else 0
    {
      if sem != null {
        if entering && Limiter.Guard(sem.capacity, 1, cancelled.Some?).Cancelled? {
          RecordErr(cancelled);
          return Limiter.GaveUp;
        }
        p := sem.AcquirePass(1, cancelled.Some?, !entering);
        if p.MustWait? { return; }
        if p.GaveUp? {
          RecordErr(cancelled);
          return;
        }
      }
      wg := wg + 1;
      p := Limiter.Acquired;
    }

    method TryGo() returns (ok: bool)
      requires sem != null ==> sem.Valid()
      modifies this, sem
      ensures sem != null ==> sem.Valid()
      ensures ok <==> sem == null || old(sem.inFlight) < sem.capacity
      ensures wg == (if ok then old(wg) + 1 else old(wg)) && err == old(err)
      ensures sem != null ==> sem.inFlight == old(sem.inFlight) + if ok then 1 else 0
    {
      if sem != null {
        ok := sem.TryAcquireN(1);
        if !ok { return; }
      }
      wg := wg + 1;
      ok := true;
    }

    method RecordErr(failure: Option<string>)
      modifies this
      ensures err == Recorded(old(err), failure) && wg == old(wg)
      ensures old(err).Some? ==> err == old(err)
      ensures old(err).None? ==> err == failure
    {
      if err.None? {
        err := failure;
      }
    }

    /** The goroutine after its function has returned: record, release, done. The
        last is deferred and happens even if the release panics. */
    method Finish(failure: Option<string>) returns (panicked: bool)
      requires 0 < wg && (sem != null ==> sem.Valid())
      modifies this, sem
      ensures sem != null ==> sem.Valid()
      ensures err == if old(err).None? then failure else old(err)
      ensures panicked <==> sem != null && old(sem.inFlight) == 0
      ensures wg == old(wg) - 1
      ensures sem != null ==> sem.inFlight == if panicked then 0 else old(sem.inFlight) - 1
    {
      panicked := false;
      if failure.Some? {
        RecordErr(failure);
      }
      if sem != null {
        panicked := sem.ReleaseN(1);
      }
      wg := wg - 1;
    }
  }

  // ---------------------------------------------------------------------
  // Any number of groups over one semaphore
  // ---------------------------------------------------------------------

  datatype Phase =
    | Acquiring     // inside Go's acquire
    | Rejected      // acquire failed, about to record why
    | Refused       // nothing was started
    | Granted       // may start, not yet counted in the wait group
    | Counted       // about to be started
    | Running       // the function is executing
    | Returned      // about to record its error
    | Releasing     // about to give the permit back
    | Leaving       // about to call wg.Done
    | Finished

  /** One Go or TryGo call; `failure` is the error it has met, `ran` whether its
      function was ever entered. */
  datatype Task = Task(group: nat, limited: bool, phase: Phase, failure: Option<string>, ran: bool)

  datatype GroupState = GroupState(limited: bool, err: Option<string>, wg: nat)

  /** A Wait that returned `result` after `upTo` Go calls; `quiet` says that no Go
      or TryGo call of the group was still in progress. */
  datatype Waiter = Waiter(group: nat, result: Option<string>, upTo: nat, quiet: bool)

  datatype Sys = Sys(sem: Limiter.Sem, groups: seq<GroupState>, tasks: seq<Task>, waiters: seq<Waiter>)

  datatype Event =
    | NewGroup(limited: bool)
    | Go(group: nat)
    | TryGo(group: nat)
    | Acquire(task: nat)
    | Cancel(task: nat, cause: string)
    | Advance(task: nat)
    | Return(task: nat, failure: Option<string>)
    | Wait(group: nat)

  function Init(capacity: nat): Sys {
    Sys(Limiter.Sem(capacity, 0, 0, 0), [], [], [])
  }

  function SetTask(s: Sys, i: nat, t: Task): Sys
    requires i < |s.tasks|
  {
    s.(tasks := s.tasks[i := t])
  }

  function SetGroup(s: Sys, g: nat, group: GroupState): Sys
    requires g < |s.groups|
  {
    s.(groups := s.groups[g := group])
  }

  function AdvanceTask(s: Sys, i: nat): Sys
    requires i < |s.tasks| && s.tasks[i].group < |s.groups|
  {
    var t := s.tasks[i];
    var g := s.groups[t.group];
    match t.phase
    case Rejected => SetGroup(SetTask(s, i, t.(phase := Refused)), t.group, g.(err := Recorded(g.err, t.failure)))
    case Granted => SetGroup(SetTask(s, i, t.(phase := Counted)), t.group, g.(wg := g.wg + 1))
    case Counted => SetTask(s, i, t.(phase := Running, ran := true))
    case Returned => SetGroup(SetTask(s, i, t.(phase := Releasing)), t.group, g.(err := Recorded(g.err, t.failure)))
    case Releasing =>
      if !t.limited then SetTask(s, i, t.(phase := Leaving))
      else if 0 < s.sem.inFlight then SetTask(s, i, t.(phase := Leaving)).(sem := Limiter.Give(s.sem, 1))
      else s
    case Leaving =>
      if 0 < g.wg then SetGroup(SetTask(s, i, t.(phase := Finished)), t.group, g.(wg := g.wg - 1)) else s
    case _ => s
  }

  predicate InGoCall(t: Task) {
    t.phase.Acquiring? || t.phase.Rejected? || t.phase.Granted? || t.phase.Counted?
  }

  ghost predicate Quiet(tasks: seq<Task>, g: nat) {
    forall i :: 0 <= i < |tasks| && tasks[i].group == g ==> !InGoCall(tasks[i])
  }

  ghost function Step(s: Sys, e: Event): Sys {
    match e
    case NewGroup(limited) => s.(groups := s.groups + [GroupState(limited, None, 0)])
    case Go(g) =>
      if g < |s.groups| then
        var limited := s.groups[g].limited;
        s.(tasks := s.tasks + [Task(g, limited, if limited then Acquiring else Granted, None, false)])
      else s
    case TryGo(g) =>
      if g < |s.groups| then
        if !s.groups[g].limited then s.(tasks := s.tasks + [Task(g, s.groups[g].limited, Granted, None, false)])
        else if Limiter.Fits(s.sem, 1) then
          s.(sem := Limiter.Take(s.sem, 1, false),
             tasks := s.tasks + [Task(g, s.groups[g].limited, Granted, None, false)])
        else s.(tasks := s.tasks + [Task(g, s.groups[g].limited, Refused, None, false)])
      else s
    case Acquire(i) =>
      if i < |s.tasks| && s.tasks[i].phase.Acquiring? && Limiter.Fits(s.sem, 1) then
        SetTask(s, i, s.tasks[i].(phase := Granted)).(sem := Limiter.Take(s.sem, 1, false))
      else s
    case Cancel(i, cause) =>
      if i < |s.tasks| && s.tasks[i].phase.Acquiring? then
        SetTask(s, i, s.tasks[i].(phase := Rejected, failure := Some(cause)))
      else s
    case Advance(i) => if i < |s.tasks| && s.tasks[i].group < |s.groups| then AdvanceTask(s, i) else s
    case Return(i, failure) =>
      if i < |s.tasks| && s.tasks[i].phase.Running? then
        SetTask(s, i, s.tasks[i].(phase := Returned, failure := failure))
      else s
    case Wait(g) =>
      if g < |s.groups| && s.groups[g].wg == 0 then
        s.(waiters := s.waiters + [Waiter(g, s.groups[g].err, |s.tasks|, Quiet(s.tasks, g))])
      else s
  }

  ghost function Exec(s: Sys, events: seq<Event>): Sys {
    if events == [] then s
    else Step(Exec(s, events[..|events| - 1]), events[|events| - 1])
  }

  // ---------------------------------------------------------------------
  // Totals per group
  // ---------------------------------------------------------------------

  function Within(tasks: seq<Task>, g: nat, weight: Task -> nat): nat {
    if tasks == [] then 0
    else
      var t := tasks[|tasks| - 1];
      Within(tasks[..|tasks| - 1], g, weight) + if t.group == g then weight(t) else 0
  }

  lemma WithinAppend(tasks: seq<Task>, t: Task, g: nat, weight: Task -> nat)
    ensures Within(tasks + [t], g, weight) == Within(tasks, g, weight) + if t.group == g then weight(t) else 0
  {
    assert (tasks + [t])[..|tasks|] == tasks;
  }

  lemma {:induction false} WithinUpdate(tasks: seq<Task>, i: nat, t: Task, g: nat, weight: Task -> nat)
    requires i < |tasks| && t.group == tasks[i].group
    ensures Within(tasks[i := t], g, weight) + (if t.group == g then weight(tasks[i]) else 0)
         == Within(tasks, g, weight) + if t.group == g then weight(t) else 0
  {
    var last := |tasks| - 1;
    if i == last {
      assert tasks[i := t][..last] == tasks[..last];
    } else {
      assert tasks[i := t][..last] == tasks[..last][i := t];
      WithinUpdate(tasks[..last], i, t, g, weight);
    }
  }

  lemma {:induction false} WithinAtLeast(tasks: seq<Task>, i: nat, weight: Task -> nat)
    requires i < |tasks|
    ensures weight(tasks[i]) <= Within(tasks, tasks[i].group, weight)
  {
    if i < |tasks| - 1 { WithinAtLeast(tasks[..|tasks| - 1], i, weight); }
  }

  /** The sum over the first `n` groups. */
  function AcrossGroups(tasks: seq<Task>, n: nat, weight: Task -> nat): nat {
    if n == 0 then 0 else AcrossGroups(tasks, n - 1, weight) + Within(tasks, n - 1, weight)
  }

  lemma {:induction false} AcrossAppend(tasks: seq<Task>, t: Task, n: nat, weight: Task -> nat)
    ensures AcrossGroups(tasks + [t], n, weight)
            == AcrossGroups(tasks, n, weight) + if t.group < n then weight(t) else 0
  {
    if 0 < n {
      AcrossAppend(tasks, t, n - 1, weight);
      WithinAppend(tasks, t, n - 1, weight);
    }
  }

  lemma {:induction false} AcrossEmpty(n: nat, weight: Task -> nat)
    ensures AcrossGroups([], n, weight) == 0
  {
    if 0 < n { AcrossEmpty(n - 1, weight); }
  }

  /** Summing group by group is summing over all tasks. */
  lemma {:induction false} AcrossIsTotal(tasks: seq<Task>, n: nat, weight: Task -> nat)
    requires forall i :: 0 <= i < |tasks| ==> tasks[i].group < n
    ensures AcrossGroups(tasks, n, weight) == Total(tasks, weight)
  {
    if tasks == [] {
      AcrossEmpty(n, weight);
    } else {
      var front := tasks[..|tasks| - 1];
      AcrossIsTotal(front, n, weight);
      AcrossAppend(front, tasks[|tasks| - 1], n, weight);
      assert front + [tasks[|tasks| - 1]] == tasks;
    }
  }

  // ---------------------------------------------------------------------
  // What every run keeps
  // ---------------------------------------------------------------------

  predicate Over(t: Task) { t.phase.Finished? || t.phase.Refused? }

  predicate Entered(t: Task) {
    t.phase.Running? || t.phase.Returned? || t.phase.Releasing? || t.phase.Leaving? || t.phase.Finished?
  }

  function PermitW(t: Task): nat {
    if && t.limited
       && (t.phase.Granted? || t.phase.Counted? || t.phase.Running? || t.phase.Returned? || t.phase.Releasing?)
    then 1 else 0
  }

  function CountedW(t: Task): nat {
    if t.phase.Counted? || (Entered(t) && !t.phase.Finished?) then 1 else 0
  }

  ghost predicate TaskOk(s: Sys, t: Task) {
    && t.group < |s.groups| && t.limited == s.groups[t.group].limited
    && (t.ran <==> Entered(t))
    && (t.phase.Rejected? ==> t.failure.Some?)
    && (t.phase.Acquiring? || t.phase.Granted? || t.phase.Counted? || t.phase.Running? ==> t.failure.None?)
    && (t.phase.Acquiring? || t.phase.Rejected? || t.phase.Refused? ==> t.limited)
    && (t.failure.Some? && !t.phase.Rejected? && !t.phase.Returned? ==> s.groups[t.group].err.Some?)
  }

  ghost predicate FailedWith(tasks: seq<Task>, g: nat, failure: Option<string>) {
    exists i :: 0 <= i < |tasks| && tasks[i].group == g && tasks[i].failure == failure
  }

  ghost predicate WaiterOk(s: Sys, w: Waiter) {
    && w.group < |s.groups| && w.upTo <= |s.tasks|
    && (w.result.Some? ==> s.groups[w.group].err == w.result)
    && (w.quiet ==> forall i :: 0 <= i < w.upTo && s.tasks[i].group == w.group ==> Over(s.tasks[i]))
    && (w.quiet && s.groups[w.group].err != w.result ==>
          exists i :: w.upTo <= i < |s.tasks| && s.tasks[i].group == w.group)
  }

  ghost predicate Errors(s: Sys) {
    && (forall i :: 0 <= i < |s.tasks| ==> TaskOk(s, s.tasks[i]))
    && (forall g :: 0 <= g < |s.groups| && s.groups[g].err.Some? ==> FailedWith(s.tasks, g, s.groups[g].err))
    && (forall k :: 0 <= k < |s.waiters| ==> WaiterOk(s, s.waiters[k]))
  }

  ghost predicate Books(s: Sys) {
    && s.sem.inFlight == Total(s.tasks, PermitW) <= s.sem.capacity
    && (forall g :: 0 <= g < |s.groups| ==> s.groups[g].wg == Within(s.tasks, g, CountedW))
  }

  ghost predicate Inv(s: Sys) {
    Errors(s) && Books(s)
  }

  /** One task moves on within its group, carrying the counters with it. */
  lemma BooksMove(s: Sys, t: Sys, i: nat)
    requires Books(s) && i < |s.tasks| && |t.tasks| == |s.tasks| && t.tasks == s.tasks[i := t.tasks[i]]
    requires t.tasks[i].group == s.tasks[i].group < |s.groups| == |t.groups|
    requires t.sem.inFlight + PermitW(s.tasks[i]) == s.sem.inFlight + PermitW(t.tasks[i])
    requires t.sem.inFlight <= t.sem.capacity == s.sem.capacity
    requires forall g :: 0 <= g < |s.groups| ==>
               t.groups[g].wg + (if g == t.tasks[i].group then CountedW(s.tasks[i]) else 0)
               == s.groups[g].wg + if g == t.tasks[i].group then CountedW(t.tasks[i]) else 0
    ensures Books(t)
  {
    Update(s.tasks, i, t.tasks[i], PermitW);
    forall g | 0 <= g < |t.groups| ensures t.groups[g].wg == Within(t.tasks, g, CountedW) {
      WithinUpdate(s.tasks, i, t.tasks[i], g, CountedW);
    }
  }

  lemma BooksJoin(s: Sys, t: Sys, task: Task)
    requires Books(s) && t.tasks == s.tasks + [task] && t.groups == s.groups && CountedW(task) == 0
    requires t.sem.inFlight == s.sem.inFlight + PermitW(task) <= t.sem.capacity == s.sem.capacity
    ensures Books(t)
  {
    Append(s.tasks, task, PermitW);
    forall g | 0 <= g < |t.groups| ensures t.groups[g].wg == Within(t.tasks, g, CountedW) {
      WithinAppend(s.tasks, task, g, CountedW);
    }
  }

  lemma {:induction false} NoTasksYet(tasks: seq<Task>, g: nat, weight: Task -> nat)
    requires forall i :: 0 <= i < |tasks| ==> tasks[i].group != g
    ensures Within(tasks, g, weight) == 0
  {
    if tasks != [] { NoTasksYet(tasks[..|tasks| - 1], g, weight); }
  }

  lemma BooksAdvance(s: Sys, i: nat)
    requires Inv(s) && i < |s.tasks|
    ensures Books(AdvanceTask(s, i))
  {
    assert TaskOk(s, s.tasks[i]);
    var t := AdvanceTask(s, i);
    AtLeast(s.tasks, i, PermitW);
    WithinAtLeast(s.tasks, i, CountedW);
    assert s.tasks[i := s.tasks[i]] == s.tasks;
    BooksMove(s, t, i);
  }

  /** A task that gives up or returns moves alone. */
  lemma AloneBooks(s: Sys, e: Event, i: nat)
    requires Inv(s) && ((e.Cancel? && e.task == i) || (e.Return? && e.task == i))
    ensures Books(Step(s, e))
  {
    var t := Step(s, e);
    if i < |s.tasks| && t != s {
      assert TaskOk(s, s.tasks[i]);
      BooksMove(s, t, i);
    }
  }

  lemma GoBooks(s: Sys, g: nat)
    requires Books(s) && g < |s.groups|
    ensures Books(Step(s, Go(g)))
  {
    var limited := s.groups[g].limited;
    var task := Task(g, limited, if limited then Acquiring else Granted, None, false);
    BooksJoin(s, s.(tasks := s.tasks + [task]), task);
  }

  lemma TryGoBooks(s: Sys, g: nat)
    requires Books(s) && g < |s.groups|
    ensures Books(Step(s, TryGo(g)))
  {
    var limited := s.groups[g].limited;
    var phase := if !limited || Limiter.Fits(s.sem, 1) then Granted else Refused;
    BooksJoin(s, Step(s, TryGo(g)), Task(g, limited, phase, None, false));
  }

  lemma BooksKept(s: Sys, e: Event)
    requires Inv(s)
    ensures Books(Step(s, e))
  {
    match e
    case NewGroup(_) => NoTasksYet(s.tasks, |s.groups|, CountedW);
    case Go(g) => if g < |s.groups| { GoBooks(s, g); }
    case TryGo(g) => if g < |s.groups| { TryGoBooks(s, g); }
    case Acquire(i) =>
      if i < |s.tasks| && s.tasks[i].phase.Acquiring? && Limiter.Fits(s.sem, 1) { AcquireBooks(s, i); }
    case Cancel(i, _) => AloneBooks(s, e, i);
    case Advance(i) => if i < |s.tasks| && s.tasks[i].group < |s.groups| { BooksAdvance(s, i); }
    case Return(i, _) => AloneBooks(s, e, i);
    case Wait(_) =>
  }

  /** Acquiring is entered only by groups with a limiter. */
  lemma AcquireBooks(s: Sys, i: nat)
    requires Inv(s) && i < |s.tasks| && s.tasks[i].phase.Acquiring? && Limiter.Fits(s.sem, 1)
    ensures Books(Step(s, Acquire(i)))
  {
    assert TaskOk(s, s.tasks[i]);
    BooksMove(s, Step(s, Acquire(i)), i);
  }

  ghost predicate SameErrors(s: Sys, t: Sys) {
    && |t.groups| >= |s.groups|
    && forall g :: 0 <= g < |s.groups| ==>
         t.groups[g].err == s.groups[g].err && t.groups[g].limited == s.groups[g].limited
  }

  /** One task moves on; it may be the one whose failure its group records. */
  lemma ErrorsMove(s: Sys, t: Sys, i: nat)
    requires Errors(s) && i < |s.tasks| && |t.tasks| == |s.tasks| && t.tasks == s.tasks[i := t.tasks[i]]
    requires t.waiters == s.waiters && |t.groups| == |s.groups| && t.tasks[i].group == s.tasks[i].group
    requires TaskOk(t, t.tasks[i]) && !Over(s.tasks[i])
    requires s.tasks[i].failure.Some? ==> t.tasks[i].failure == s.tasks[i].failure
    requires forall g :: 0 <= g < |s.groups| ==>
               t.groups[g].limited == s.groups[g].limited
               && (t.groups[g].err == s.groups[g].err
                   || (g == t.tasks[i].group && s.groups[g].err.None? && t.groups[g].err == t.tasks[i].failure))
    ensures Errors(t)
  {
    forall k | 0 <= k < |t.tasks| ensures TaskOk(t, t.tasks[k]) {
      if k != i { assert TaskOk(s, s.tasks[k]); }
    }
    forall g | 0 <= g < |t.groups| && t.groups[g].err.Some? ensures FailedWith(t.tasks, g, t.groups[g].err) {
      if t.groups[g].err == s.groups[g].err {
        var j :| 0 <= j < |s.tasks| && s.tasks[j].group == g && s.tasks[j].failure == s.groups[g].err;
        assert t.tasks[j].group == g && t.tasks[j].failure == t.groups[g].err;
      } else {
        assert t.tasks[i].group == g;
      }
    }
    forall k | 0 <= k < |t.waiters| ensures WaiterOk(t, t.waiters[k]) {
      var w := s.waiters[k];
      assert WaiterOk(s, w);
      if w.quiet && t.groups[w.group].err != w.result {
        if s.groups[w.group].err != w.result {
          var j :| w.upTo <= j < |s.tasks| && s.tasks[j].group == w.group;
          assert t.tasks[j].group == w.group;
        } else {
          assert w.upTo <= i && t.tasks[i].group == w.group;
        }
      }
    }
  }

  lemma ErrorsGrow(s: Sys, t: Sys)
    requires Errors(s) && SameErrors(s, t) && s.tasks <= t.tasks && t.waiters == s.waiters
    requires forall g :: |s.groups| <= g < |t.groups| ==> t.groups[g].err.None?
    requires forall i :: |s.tasks| <= i < |t.tasks| ==> TaskOk(t, t.tasks[i])
    ensures Errors(t)
  {
    forall k | 0 <= k < |t.tasks| ensures TaskOk(t, t.tasks[k]) {
      if k < |s.tasks| { assert TaskOk(s, s.tasks[k]); }
    }
    forall g | 0 <= g < |t.groups| && t.groups[g].err.Some? ensures FailedWith(t.tasks, g, t.groups[g].err) {
      var j :| 0 <= j < |s.tasks| && s.tasks[j].group == g && s.tasks[j].failure == s.groups[g].err;
      assert t.tasks[j].group == g && t.tasks[j].failure == t.groups[g].err;
    }
    forall k | 0 <= k < |t.waiters| ensures WaiterOk(t, t.waiters[k]) {
      var w := s.waiters[k];
      assert WaiterOk(s, w);
      if w.quiet && t.groups[w.group].err != w.result {
        var j :| w.upTo <= j < |s.tasks| && s.tasks[j].group == w.group;
        assert t.tasks[j].group == w.group;
      }
    }
  }

  lemma ErrorsWait(s: Sys, g: nat)
    requires Inv(s) && g < |s.groups| && s.groups[g].wg == 0
    ensures Errors(Step(s, Wait(g)))
  {
    var t := Step(s, Wait(g));
    var w := t.waiters[|s.waiters|];
    if w.quiet {
      forall i | 0 <= i < |s.tasks| && s.tasks[i].group == g ensures Over(s.tasks[i]) {
        WithinAtLeast(s.tasks, i, CountedW);
        assert !InGoCall(s.tasks[i]);
      }
    }
    assert WaiterOk(t, w);
    forall k | 0 <= k < |t.waiters| ensures WaiterOk(t, t.waiters[k]) {
      if k < |s.waiters| { assert WaiterOk(s, s.waiters[k]); }
    }
    forall k | 0 <= k < |t.tasks| ensures TaskOk(t, t.tasks[k]) {
      assert TaskOk(s, s.tasks[k]);
    }
  }

  lemma ErrorsAdvance(s: Sys, i: nat)
    requires Errors(s) && i < |s.tasks| && s.tasks[i].group < |s.groups|
    ensures Errors(AdvanceTask(s, i))
  {
    assert TaskOk(s, s.tasks[i]);
    var t := AdvanceTask(s, i);
    if t != s { ErrorsMove(s, t, i); }
  }

  lemma ErrorsAlone(s: Sys, e: Event, i: nat)
    requires Inv(s) && Step(s, e) != s
    requires e == Acquire(i) || (e.Cancel? && e.task == i) || (e.Return? && e.task == i)
    ensures Errors(Step(s, e))
  {
    assert TaskOk(s, s.tasks[i]);
    ErrorsMove(s, Step(s, e), i);
  }

  lemma ErrorsKept(s: Sys, e: Event)
    requires Inv(s)
    ensures Errors(Step(s, e))
  {
    var t := Step(s, e);
    match e
    case NewGroup(_) => ErrorsGrow(s, t);
    case Go(g) => ErrorsGrow(s, t);
    case TryGo(g) => ErrorsGrow(s, t);
    case Acquire(i) => if t != s { ErrorsAlone(s, e, i); }
    case Cancel(i, _) => if t != s { ErrorsAlone(s, e, i); }
    case Advance(i) => if t != s { ErrorsAdvance(s, i); }
    case Return(i, _) => if t != s { ErrorsAlone(s, e, i); }
    case Wait(g) => if t != s { ErrorsWait(s, g); }
  }

  lemma {:induction false} Reachable(capacity: nat, events: seq<Event>)
    ensures Inv(Exec(Init(capacity), events)) && Exec(Init(capacity), events).sem.capacity == capacity
  {
    if events != [] {
      var s := Exec(Init(capacity), events[..|events| - 1]);
      Reachable(capacity, events[..|events| - 1]);
      BooksKept(s, events[|events| - 1]);
      ErrorsKept(s, events[|events| - 1]);
    }
  }

  // ---------------------------------------------------------------------
  // Main results
  // ---------------------------------------------------------------------

  /** The permits out on the shared semaphore are exactly those held by the groups
      together, never above its capacity. */
  lemma {:induction false} PermitsSumOverGroups(capacity: nat, events: seq<Event>)
    ensures var s := Exec(Init(capacity), events);
            s.sem.inFlight == AcrossGroups(s.tasks, |s.groups|, PermitW) <= capacity
  {
    Reachable(capacity, events);
    var s := Exec(Init(capacity), events);
    forall i | 0 <= i < |s.tasks| ensures s.tasks[i].group < |s.groups| {
      assert TaskOk(s, s.tasks[i]);
    }
    AcrossIsTotal(s.tasks, |s.groups|, PermitW);
  }

  /** A goroutine that comes to give its permit back finds one outstanding, and
      one that comes to call wg.Done finds itself counted: neither panics. */
  lemma {:induction false} FinishingNeverPanics(capacity: nat, events: seq<Event>, i: nat)
    requires i < |Exec(Init(capacity), events).tasks|
    ensures var s := Exec(Init(capacity), events);
            var t := s.tasks[i];
            && t.group < |s.groups|
            && (t.phase.Releasing? && t.limited ==> 0 < s.sem.inFlight)
            && (t.phase.Leaving? ==> 0 < s.groups[t.group].wg)
  {
    Reachable(capacity, events);
    var s := Exec(Init(capacity), events);
    assert TaskOk(s, s.tasks[i]);
    AtLeast(s.tasks, i, PermitW);
    WithinAtLeast(s.tasks, i, CountedW);
  }

  predicate SentAway(t: Task) { (t.phase.Rejected? || t.phase.Refused?) && !t.ran }

  /** A Go call of a group without a limiter is never sent away: its function is
      started whatever has become of the context. */
  lemma {:induction false} UnlimitedGoStarts(capacity: nat, events: seq<Event>, i: nat)
    requires i < |Exec(Init(capacity), events).tasks| && !Exec(Init(capacity), events).tasks[i].limited
    ensures var phase := Exec(Init(capacity), events).tasks[i].phase;
            !phase.Acquiring? && !phase.Rejected? && !phase.Refused?
  {
    Reachable(capacity, events);
    assert TaskOk(Exec(Init(capacity), events), Exec(Init(capacity), events).tasks[i]);
  }

  /** A context that has ended stops Go in a group with a limiter and in no other. */
  method EndedContext() returns (limited: Limiter.Pass, unlimited: Limiter.Pass)
    ensures limited.GaveUp? && unlimited.Acquired?
  {
    var sem := new Limiter.Semaphore(1);
    var group := new Group(sem);
    limited := group.GoPass(true, Some("ended"));
    group := new Group(null);
    unlimited := group.GoPass(true, Some("ended"));
  }

  lemma SentAwayStays(s: Sys, e: Event, i: nat)
    requires i < |s.tasks| && SentAway(s.tasks[i])
    ensures i < |Step(s, e).tasks| && SentAway(Step(s, e).tasks[i])
  {
  }

  lemma {:induction false} SentAwayForGood(s: Sys, more: seq<Event>, i: nat)
    requires i < |s.tasks| && SentAway(s.tasks[i])
    ensures i < |Exec(s, more).tasks| && SentAway(Exec(s, more).tasks[i])
  {
    if more != [] {
      SentAwayForGood(s, more[..|more| - 1], i);
      SentAwayStays(Exec(s, more[..|more| - 1]), more[|more| - 1], i);
    }
  }

  /** A function whose acquire failed is never entered, neither yet nor later. */
  lemma {:induction false} FailedAcquireNeverRuns(capacity: nat, events: seq<Event>, more: seq<Event>, i: nat)
    requires i < |Exec(Init(capacity), events).tasks|
    requires var phase := Exec(Init(capacity), events).tasks[i].phase; phase.Rejected? || phase.Refused?
    ensures var s := Exec(Exec(Init(capacity), events), more);
            i < |s.tasks| && !s.tasks[i].ran
  {
    Reachable(capacity, events);
    assert TaskOk(Exec(Init(capacity), events), Exec(Init(capacity), events).tasks[i]);
    SentAwayForGood(Exec(Init(capacity), events), more, i);
  }

  /** A group's error, once set, never changes again. */
  lemma {:induction false} FirstErrorSticks(s: Sys, more: seq<Event>, g: nat)
    requires g < |s.groups| && s.groups[g].err.Some?
    ensures g < |Exec(s, more).groups| && Exec(s, more).groups[g].err == s.groups[g].err
  {
    if more != [] {
      FirstErrorSticks(s, more[..|more| - 1], g);
    }
  }

  /** A Wait made when no Go of its group was in progress finds every call refused or
      run to its end; it returns nil exactly when every call so far succeeded, and
      otherwise the error of one of them. */
  lemma {:induction false} WaitReportsFailure(capacity: nat, events: seq<Event>, g: nat)
    requires var s := Exec(Init(capacity), events);
             g < |s.groups| && s.groups[g].wg == 0 && Quiet(s.tasks, g)
    ensures var s := Exec(Init(capacity), events);
            && (s.groups[g].err.None? <==>
                  forall i :: 0 <= i < |s.tasks| && s.tasks[i].group == g ==> s.tasks[i].failure.None?)
            && (s.groups[g].err.Some? ==> FailedWith(s.tasks, g, s.groups[g].err))
            && (forall i :: 0 <= i < |s.tasks| && s.tasks[i].group == g ==>
                  (s.tasks[i].phase.Finished? && s.tasks[i].ran) || (s.tasks[i].phase.Refused? && !s.tasks[i].ran))
  {
    Reachable(capacity, events);
    var s := Exec(Init(capacity), events);
    forall i | 0 <= i < |s.tasks| && s.tasks[i].group == g
      ensures (s.tasks[i].phase.Finished? && s.tasks[i].ran) || (s.tasks[i].phase.Refused? && !s.tasks[i].ran)
    {
      assert TaskOk(s, s.tasks[i]) && !InGoCall(s.tasks[i]);
      WithinAtLeast(s.tasks, i, CountedW);
    }
    forall i | 0 <= i < |s.tasks| && s.tasks[i].group == g && s.tasks[i].failure.Some? ensures s.groups[g].err.Some? {
      assert TaskOk(s, s.tasks[i]) && !InGoCall(s.tasks[i]);
      WithinAtLeast(s.tasks, i, CountedW);
    }
  }

  /** Two such Waits with no Go of the group between them return the same, and it
      is still the group's error. */
  lemma {:induction false} WaitIsStable(capacity: nat, events: seq<Event>, a: nat, b: nat)
    requires var s := Exec(Init(capacity), events);
             && a < |s.waiters| && b < |s.waiters| && s.waiters[a].quiet && s.waiters[b].quiet
             && s.waiters[a].group == s.waiters[b].group
             && (forall i :: 0 <= i < |s.tasks| && s.tasks[i].group == s.waiters[a].group
                             ==> i < s.waiters[a].upTo && i < s.waiters[b].upTo)
    ensures var s := Exec(Init(capacity), events);
            && s.waiters[a].group < |s.groups|
            && s.waiters[a].result == s.waiters[b].result == s.groups[s.waiters[a].group].err
  {
    Reachable(capacity, events);
    var s := Exec(Init(capacity), events);
    assert WaiterOk(s, s.waiters[a]) && WaiterOk(s, s.waiters[b]);
  }

  /** Who starts, in any run: a waiting Go goes on, and a TryGo starts, exactly when the
      goroutines of all the groups leave a permit. */
  lemma {:induction false} StartsIff(capacity: nat, events: seq<Event>, i: nat, g: nat)
    ensures var s := Exec(Init(capacity), events);
            var free := AcrossGroups(s.tasks, |s.groups|, PermitW) < capacity;
            && (i < |s.tasks| && s.tasks[i].phase.Acquiring? ==>
                  Step(s, Acquire(i)).tasks ==
                    s.tasks[i := if free then s.tasks[i].(phase := Granted) else s.tasks[i]])
            && (g < |s.groups| ==>
                  && Step(s, TryGo(g)).tasks ==
                       s.tasks + [Task(g, s.groups[g].limited,
                                       if !s.groups[g].limited || free then Granted else Refused, None, false)]
                  && Step(s, Go(g)).tasks ==
                       s.tasks + [Task(g, s.groups[g].limited,
                                       if s.groups[g].limited then Acquiring else Granted, None, false)])
  {
    PermitsSumOverGroups(capacity, events);
    Reachable(capacity, events);
  }

  /** The call has its outcome: its function has returned or its acquire has failed. */
  predicate Decided(t: Task) {
    t.phase.Rejected? || !(InGoCall(t) || t.phase.Running?)
  }

  lemma OutcomeStays(s: Sys, e: Event, i: nat)
    requires i < |s.tasks| && Decided(s.tasks[i])
    ensures var t := Step(s, e);
            && i < |t.tasks| && Decided(t.tasks[i]) && t.tasks[i].failure == s.tasks[i].failure
            && t.tasks[i].group == s.tasks[i].group && t.tasks[i].ran == s.tasks[i].ran
  {
  }

  lemma {:induction false} OutcomeStaysForGood(s: Sys, more: seq<Event>, i: nat)
    requires Inv(s) && i < |s.tasks| && Decided(s.tasks[i])
    ensures var t := Exec(s, more);
            && Inv(t) && i < |t.tasks| && Decided(t.tasks[i]) && t.tasks[i].failure == s.tasks[i].failure
            && t.tasks[i].group == s.tasks[i].group && t.tasks[i].ran == s.tasks[i].ran
  {
    if more != [] {
      var t := Exec(s, more[..|more| - 1]);
      OutcomeStaysForGood(s, more[..|more| - 1], i);
      OutcomeStays(t, more[|more| - 1], i);
      BooksKept(t, more[|more| - 1]);
      ErrorsKept(t, more[|more| - 1]);
    }
  }

  /** What a function returns, or the cause an acquire failed with, stays with its call
      and keeps every later Wait of the group from returning nil. */
  lemma {:induction false} FailureReachesWait(capacity: nat, events: seq<Event>, e: Event, more: seq<Event>, i: nat)
    requires i < |Exec(Init(capacity), events).tasks|
    requires var phase := Exec(Init(capacity), events).tasks[i].phase;
             (e.Return? && e.task == i && phase.Running?) || (e.Cancel? && e.task == i && phase.Acquiring?)
    ensures var s := Exec(Init(capacity), events);
            var g := s.tasks[i].group;
            var t := Exec(Step(s, e), more);
            && i < |t.tasks| && t.tasks[i].failure == (if e.Return? then e.failure else Some(e.cause))
            && t.tasks[i].ran == e.Return?
            && (t.tasks[i].failure.Some? && g < |t.groups| && t.groups[g].wg == 0 && Quiet(t.tasks, g) ==>
                  t.groups[g].err.Some?)
  {
    var s := Exec(Init(capacity), events);
    Reachable(capacity, events);
    assert TaskOk(s, s.tasks[i]);
    BooksKept(s, e);
    ErrorsKept(s, e);
    OutcomeStaysForGood(Step(s, e), more, i);
    var t := Exec(Step(s, e), more);
    assert TaskOk(t, t.tasks[i]);
    WithinAtLeast(t.tasks, i, CountedW);
  }

  /** The steps a call that has got past its acquire has left to take. */
  function StepsLeft(phase: Phase): nat {
    match phase
    case Granted => 6
    case Counted => 5
    case Running => 4
    case Returned => 3
    case Releasing => 2
    case Leaving => 1
    case Rejected => 1
    case _ => 0
  }

  function NextOf(t: Task, i: nat, failure: Option<string>): Event {
    if t.phase.Running? then Return(i, failure) else Advance(i)
  }

  lemma NextIsTaken(s: Sys, i: nat, failure: Option<string>)
    requires Inv(s) && i < |s.tasks| && 0 < StepsLeft(s.tasks[i].phase)
    ensures var t := Step(s, NextOf(s.tasks[i], i, failure));
            && |t.tasks| == |s.tasks| && t.tasks == s.tasks[i := t.tasks[i]]
            && StepsLeft(t.tasks[i].phase) == StepsLeft(s.tasks[i].phase) - 1
            && (StepsLeft(t.tasks[i].phase) == 0 ==> Over(t.tasks[i]))
            && t.tasks[i].phase.Refused? == s.tasks[i].phase.Rejected?
  {
    assert TaskOk(s, s.tasks[i]);
    AtLeast(s.tasks, i, PermitW);
    WithinAtLeast(s.tasks, i, CountedW);
  }

  lemma {:induction false} RunsToItsEnd(s: Sys, i: nat, failure: Option<string>) returns (more: seq<Event>)
    requires Inv(s) && i < |s.tasks| && 0 < StepsLeft(s.tasks[i].phase)
    ensures var t := Exec(s, more);
            && Inv(t) && |t.tasks| == |s.tasks| && t.tasks == s.tasks[i := t.tasks[i]] && Over(t.tasks[i])
            && t.tasks[i].phase.Refused? == s.tasks[i].phase.Rejected?
    decreases StepsLeft(s.tasks[i].phase)
  {
    var e := NextOf(s.tasks[i], i, failure);
    var t := Step(s, e);
    NextIsTaken(s, i, failure);
    NextKeepsInv(s, e);
    if StepsLeft(t.tasks[i].phase) == 0 {
      more := [];
    } else {
      more := RunsToItsEnd(t, i, failure);
    }
    ghost var u := Exec(t, more);
    assert u.tasks == t.tasks[i := u.tasks[i]] == s.tasks[i := u.tasks[i]];
    OneThenMore(s, e, more);
    more := [e] + more;
  }

  lemma NextKeepsInv(s: Sys, e: Event)
    requires Inv(s)
    ensures Inv(Step(s, e))
  {
    BooksKept(s, e);
    ErrorsKept(s, e);
  }

  lemma {:induction false} OneThenMore(s: Sys, e: Event, more: seq<Event>)
    ensures Exec(s, [e] + more) == Exec(Step(s, e), more)
  {
    if more == [] {
      Unroll(s, [], e);
      assert [e] + more == [] + [e];
    } else {
      var front, last := more[..|more| - 1], more[|more| - 1];
      OneThenMore(s, e, front);
      Unroll(s, [e] + front, last);
      Unroll(Step(s, e), front, last);
      assert [e] + more == [e] + front + [last] && more == front + [last];
    }
  }

  lemma Unroll(s: Sys, events: seq<Event>, e: Event)
    ensures Exec(s, events + [e]) == Step(Exec(s, events), e)
  {
    assert (events + [e])[..|events|] == events;
  }

  /** No call is stuck once its acquire is over: by its own steps alone it gets to the
      end of its function and gives back its permit, or is refused with its cause. */
  lemma {:induction false} EveryCallCanFinish(capacity: nat, events: seq<Event>, i: nat, failure: Option<string>)
    returns (more: seq<Event>)
    requires i < |Exec(Init(capacity), events).tasks| && !Exec(Init(capacity), events).tasks[i].phase.Acquiring?
    ensures var s := Exec(Init(capacity), events);
            var t := Exec(s, more);
            && i < |t.tasks| && Over(t.tasks[i]) && PermitW(t.tasks[i]) == 0
            && (s.tasks[i].phase.Rejected? || s.tasks[i].phase.Refused? <==> t.tasks[i].phase.Refused?)
            && t.sem.inFlight == s.sem.inFlight - PermitW(s.tasks[i])
  {
    Reachable(capacity, events);
    var s := Exec(Init(capacity), events);
    if Over(s.tasks[i]) {
      more := [];
    } else {
      more := RunsToItsEnd(s, i, failure);
      Update(s.tasks, i, Exec(s, more).tasks[i], PermitW);
    }
  }
}
