/** internal/cacheutil/async_writer.go: bounded background writes.

    A job is its outcome: the bytes it wrote and the error it returned, if any.
    `AsyncWriter` holds the guarded and atomic fields, each method being a
    stretch of code no other goroutine can cut into at a point that matters to
    it; `Sys` runs any number of submitters, workers, flushers and closers with
    every atomic operation a step of its own. A mutex held across steps shows
    as `submit` being in progress.
 */
module AsyncWriter {
  import opened Options
  import opened Counting

  datatype Job = Job(bytes: int, error: Option<string>)

  /** Channel, flags and counters; jobs are named by the order of acceptance. */
  datatype Core = Core(
    capacity: nat, queue: seq<nat>, closed: bool, firstErr: seq<string>,
    queued: nat, completed: nat, failed: nat, bytes: int, jobsWG: nat)

  function New(queueSize: int): Core {
    Core(if queueSize < 1 then 1 else queueSize, [], false, [], 0, 0, 0, 0, 0)
  }

  predicate HasRoom(c: Core) {
    |c.queue| < c.capacity
  }

  function Announce(c: Core): Core { c.(jobsWG := c.jobsWG + 1) }
  function Send(c: Core, id: nat): Core { c.(queue := c.queue + [id]) }
  function Retract(c: Core): Core requires 0 < c.jobsWG { c.(jobsWG := c.jobsWG - 1) }
  function CountQueued(c: Core): Core { c.(queued := c.queued + 1) }
  function AddBytes(c: Core, job: Job): Core { if job.bytes > 0 then c.(bytes := c.bytes + job.bytes) else c }
  function CountFailed(c: Core): Core { c.(failed := c.failed + 1) }
  function JoinErr(c: Core, error: string): Core { c.(firstErr := c.firstErr + [error]) }
  function CountCompleted(c: Core): Core { c.(completed := c.completed + 1) }

  class AsyncWriter {
    const capacity: nat
    var queue: seq<nat>
    var closed: bool
    var firstErr: seq<string>
    var queued: nat
    var completed: nat
    var failed: nat
    var bytes: int
    var jobsWG: nat

    ghost function View(): Core
      reads this
    {
      Core(capacity, queue, closed, firstErr, queued, completed, failed, bytes, jobsWG)
    }

    constructor (queueSize: int)
      ensures View() == New(queueSize)
      ensures capacity == (if queueSize < 1 then 1 else queueSize) && queue == [] && !closed
      ensures queued == completed == failed == bytes == jobsWG == 0 && firstErr == []
    {
      capacity := if queueSize < 1 then 1 else queueSize;
      queue, closed, firstErr := [], false, [];
      queued, completed, failed, bytes, jobsWG := 0, 0, 0, 0, 0;
    }

    /** Accepts without blocking, or leaves everything as it was. */
    method Submit(id: nat) returns (ok: bool)
      modifies this
      ensures ok <==> !old(closed) && |old(queue)| < capacity
      ensures ok ==> queue == old(queue) + [id] && queued == old(queued) + 1 && jobsWG == old(jobsWG) + 1
      ensures ok ==> completed == old(completed) && failed == old(failed) && bytes == old(bytes)
      ensures View() == if ok then CountQueued(Send(Announce(old(View())), id)) else old(View())
    {
      if closed { return false; }
      jobsWG := jobsWG + 1;
      if |queue| < capacity {
        queue := queue + [id];
        queued := queued + 1;
        return true;
      }
      jobsWG := jobsWG - 1;
      return false;
    }

    method Receive() returns (id: Option<nat>)
      modifies this
      ensures id.None? <==> old(queue) == []
      ensures id.None? ==> View() == old(View())
      ensures id.Some? ==> old(queue) == [id.value] + queue && View() == old(View()).(queue := queue)
    {
      if queue == [] { return None; }
      id := Some(queue[0]);
      queue := queue[1..];
    }

    /** What a worker does once the job has returned. */
    method Account(job: Job)
      requires 0 < jobsWG
      modifies this
      ensures View() == Retract(CountCompleted(
                if job.error.Some? then JoinErr(CountFailed(AddBytes(old(View()), job)), job.error.value)
                else AddBytes(old(View()), job)))
      ensures bytes == old(bytes) + (if job.bytes > 0 then job.bytes else 0)
      ensures failed == old(failed) + (if job.error.Some? then 1 else 0)
      ensures firstErr == old(firstErr) + (if job.error.Some? then [job.error.value] else [])
      ensures completed == old(completed) + 1 && jobsWG == old(jobsWG) - 1
      ensures queue == old(queue) && closed == old(closed) && queued == old(queued)
    {
      if job.bytes > 0 {
        bytes := bytes + job.bytes;
      }
      if job.error.Some? {
        failed := failed + 1;
        firstErr := firstErr + [job.error.value];
      }
      completed := completed + 1;
      jobsWG := jobsWG - 1;
    }

    method CloseQueue()
      modifies this
      ensures View() == old(View()).(closed := true)
    {
      if !closed {
        closed := true;
      }
    }
  }

  // ---------------------------------------------------------------------
  // Any number of goroutines
  // ---------------------------------------------------------------------

  datatype Stage = Queued | Running | Weighed | Counted | Joined | Completed | Finished

  datatype Accepted = Accepted(job: Job, stage: Stage)

  /** The Submit call holding the mutex, if any. */
  datatype Submitting = Nobody | Announced(job: Job) | Sent

  datatype Phase =
    | Starting                        // Close only: about to take the mutex
    | Waiting                         // in jobsWG.Wait
    | Drained                         // the wait has returned
    | Leaving(errs: seq<string>)      // has read firstErr; Close waits for the workers
    | Returned(errs: seq<string>)

  /** A Flush or Close call; `upTo` jobs had been accepted when it was made. */
  datatype Flusher = Flusher(closes: bool, upTo: nat, phase: Phase)

  /** `started` lists the jobs in the order they were run, `joined` those whose
      errors make up firstErr. Workers that are neither idle nor exited are busy
      with a job. */
  datatype Sys = Sys(
    core: Core, jobs: seq<Accepted>, submit: Submitting,
    workers: nat, idle: nat, exited: nat,
    flushers: seq<Flusher>, started: seq<nat>, joined: seq<nat>)

  datatype Event =
    | BeginSubmit(job: Job)
    | TrySend
    | NoteQueued
    | Take
    | Advance(id: nat)
    | Exit
    | BeginFlush(closes: bool)
    | Shut(who: nat)
    | Drain(who: nat)
    | ReadErr(who: nat)
    | Return(who: nat)

  function Init(workers: int, queueSize: int): Sys {
    var n := if workers < 1 then 1 else workers;
    Sys(New(queueSize), [], Nobody, n, n, 0, [], [], [])
  }

  function Moved(s: Sys, id: nat, stage: Stage): seq<Accepted>
    requires id < |s.jobs|
  {
    s.jobs[id := s.jobs[id].(stage := stage)]
  }

  function AdvanceJob(s: Sys, id: nat): Sys
    requires id < |s.jobs|
  {
    var job := s.jobs[id].job;
    match s.jobs[id].stage
    case Queued => s
    case Running => s.(core := AddBytes(s.core, job), jobs := Moved(s, id, Weighed))
    case Weighed =>
      if job.error.Some? then s.(core := CountFailed(s.core), jobs := Moved(s, id, Counted))
      else s.(jobs := Moved(s, id, Joined))
    case Counted =>
      if s.submit.Nobody? && job.error.Some? then
        s.(core := JoinErr(s.core, job.error.value), jobs := Moved(s, id, Joined), joined := s.joined + [id])
      else s
    case Joined => s.(core := CountCompleted(s.core), jobs := Moved(s, id, Completed))
    case Completed =>
      if 0 < s.core.jobsWG then
        s.(core := Retract(s.core), jobs := Moved(s, id, Finished), idle := s.idle + 1)
      else s
    case Finished => s
  }

  function SetPhase(s: Sys, i: nat, phase: Phase): Sys
    requires i < |s.flushers|
  {
    s.(flushers := s.flushers[i := s.flushers[i].(phase := phase)])
  }

  function Step(s: Sys, e: Event): Sys {
    match e
    case BeginSubmit(job) =>
      if s.submit.Nobody? && !s.core.closed then s.(core := Announce(s.core), submit := Announced(job)) else s
    case TrySend =>
      if s.submit.Announced? then
        if HasRoom(s.core) then
          s.(core := Send(s.core, |s.jobs|), jobs := s.jobs + [Accepted(s.submit.job, Queued)], submit := Sent)
        else if 0 < s.core.jobsWG then s.(core := Retract(s.core), submit := Nobody)
        else s
      else s
    case NoteQueued => if s.submit.Sent? then s.(core := CountQueued(s.core), submit := Nobody) else s
    case Take =>
      if 0 < s.idle && s.core.queue != [] && s.core.queue[0] < |s.jobs| then
        var id := s.core.queue[0];
        s.(core := s.core.(queue := s.core.queue[1..]), jobs := Moved(s, id, Running),
           idle := s.idle - 1, started := s.started + [id])
      else s
    case Advance(id) => if id < |s.jobs| then AdvanceJob(s, id) else s
    case Exit =>
      if 0 < s.idle && s.core.closed && s.core.queue == [] then s.(idle := s.idle - 1, exited := s.exited + 1) else s
    case BeginFlush(closes) =>
      s.(flushers := s.flushers + [Flusher(closes, |s.jobs|, if closes then Starting else Waiting)])
    case Shut(i) =>
      if i < |s.flushers| && s.flushers[i].phase.Starting? && s.submit.Nobody? then
        SetPhase(s.(core := s.core.(closed := true)), i, Waiting)
      else s
    case Drain(i) =>
      if i < |s.flushers| && s.flushers[i].phase.Waiting? && s.core.jobsWG == 0 then SetPhase(s, i, Drained) else s
    case ReadErr(i) =>
      if i < |s.flushers| && s.flushers[i].phase.Drained? && s.submit.Nobody? then
        SetPhase(s, i, Leaving(s.core.firstErr))
      else s
    case Return(i) =>
      if i < |s.flushers| && s.flushers[i].phase.Leaving? && (s.flushers[i].closes ==> s.exited == s.workers) then
        SetPhase(s, i, Returned(s.flushers[i].phase.errs))
      else s
  }

  function Exec(s: Sys, events: seq<Event>): Sys {
    if events == [] then s
    else Step(Exec(s, events[..|events| - 1]), events[|events| - 1])
  }

  // ---------------------------------------------------------------------
  // What every run keeps
  // ---------------------------------------------------------------------

  predicate Busy(a: Accepted) { !a.stage.Queued? && !a.stage.Finished? }
  predicate Done(a: Accepted) { a.stage.Completed? || a.stage.Finished? }
  predicate ErrJoined(a: Accepted) { a.job.error.Some? && (a.stage.Joined? || Done(a)) }

  function BusyW(a: Accepted): nat { if Busy(a) then 1 else 0 }
  function InHandW(a: Accepted): nat { if Busy(a) && !Done(a) then 1 else 0 }
  function UnfinishedW(a: Accepted): nat { if a.stage.Finished? then 0 else 1 }
  function DoneW(a: Accepted): nat { if Done(a) then 1 else 0 }
  function FailedW(a: Accepted): nat { if a.stage.Counted? || ErrJoined(a) then 1 else 0 }
  function BytesW(a: Accepted): nat {
    if a.stage.Queued? || a.stage.Running? || a.job.bytes <= 0 then 0 else a.job.bytes
  }

  /** The channel holds the latest jobs in order; all earlier ones were started
      in order, once each. */
  ghost predicate Fifo(s: Sys) {
    && |s.started| + |s.core.queue| == |s.jobs|
    && |s.core.queue| <= s.core.capacity
    && (forall k :: 0 <= k < |s.started| ==> s.started[k] == k)
    && (forall k :: 0 <= k < |s.core.queue| ==> s.core.queue[k] == |s.started| + k)
    && (forall j :: 0 <= j < |s.jobs| ==> (s.jobs[j].stage.Queued? <==> |s.started| <= j))
  }

  ghost predicate Ledger(s: Sys) {
    && s.core.queued + (if s.submit.Sent? then 1 else 0) == |s.jobs|
    && s.core.completed == Total(s.jobs, DoneW)
    && s.core.failed == Total(s.jobs, FailedW)
    && s.core.bytes == Total(s.jobs, BytesW)
    && s.core.jobsWG == Total(s.jobs, UnfinishedW) + (if s.submit.Announced? then 1 else 0)
    && |s.jobs| == |s.core.queue| + Total(s.jobs, InHandW) + s.core.completed
    && s.idle + s.exited + Total(s.jobs, BusyW) == s.workers
  }

  /** firstErr is the errors of the jobs in `joined`, which are the failed jobs
      past recordErr, each once. */
  ghost predicate Errors(s: Sys) {
    && |s.joined| == |s.core.firstErr|
    && (forall k :: 0 <= k < |s.joined| ==>
          s.joined[k] < |s.jobs| && ErrJoined(s.jobs[s.joined[k]])
          && s.core.firstErr[k] == s.jobs[s.joined[k]].job.error.value)
    && (forall j :: 0 <= j < |s.jobs| && ErrJoined(s.jobs[j]) ==> j in s.joined)
    && (forall k, l :: 0 <= k < l < |s.joined| ==> s.joined[k] != s.joined[l])
  }

  ghost predicate AllFinished(jobs: seq<Accepted>, upTo: nat) {
    upTo <= |jobs| && forall j :: 0 <= j < upTo ==> jobs[j].stage.Finished?
  }

  ghost predicate FlusherOk(s: Sys, f: Flusher) {
    && f.upTo <= |s.jobs|
    && (f.closes && !f.phase.Starting? ==> s.core.closed)
    && (!f.phase.Starting? && !f.phase.Waiting? ==>
          AllFinished(s.jobs, f.upTo) && (f.closes ==> AllFinished(s.jobs, |s.jobs|)))
    && (f.phase.Leaving? || f.phase.Returned? ==>
          f.phase.errs <= s.core.firstErr && |f.phase.errs| <= |s.joined|
          && (forall j :: 0 <= j < f.upTo && s.jobs[j].job.error.Some? ==> j in s.joined[..|f.phase.errs|])
          && (f.closes ==> f.phase.errs == s.core.firstErr))
  }

  ghost predicate Inv(s: Sys) {
    && Fifo(s) && Ledger(s) && Errors(s)
    && (s.core.closed ==> s.submit.Nobody?)
    && (forall i :: 0 <= i < |s.flushers| ==> FlusherOk(s, s.flushers[i]))
  }

  lemma InitInv(workers: int, queueSize: int)
    ensures Inv(Init(workers, queueSize))
  {
  }

  lemma FifoAdvance(s: Sys, id: nat)
    requires Fifo(s) && id < |s.jobs|
    ensures Fifo(AdvanceJob(s, id))
  {
  }

  lemma FifoTake(s: Sys)
    requires Fifo(s)
    ensures Fifo(Step(s, Take))
  {
  }

  lemma FifoKept(s: Sys, e: Event)
    requires Fifo(s)
    ensures Fifo(Step(s, e))
  {
    match e
    case Take => FifoTake(s);
    case Advance(id) => if id < |s.jobs| { FifoAdvance(s, id); }
    case _ =>
  }

  lemma JobMoves(jobs: seq<Accepted>, id: nat, a: Accepted)
    requires id < |jobs|
    ensures Total(jobs[id := a], BusyW) + BusyW(jobs[id]) == Total(jobs, BusyW) + BusyW(a)
    ensures Total(jobs[id := a], InHandW) + InHandW(jobs[id]) == Total(jobs, InHandW) + InHandW(a)
    ensures Total(jobs[id := a], UnfinishedW) + UnfinishedW(jobs[id]) == Total(jobs, UnfinishedW) + UnfinishedW(a)
    ensures Total(jobs[id := a], DoneW) + DoneW(jobs[id]) == Total(jobs, DoneW) + DoneW(a)
    ensures Total(jobs[id := a], FailedW) + FailedW(jobs[id]) == Total(jobs, FailedW) + FailedW(a)
    ensures Total(jobs[id := a], BytesW) + BytesW(jobs[id]) == Total(jobs, BytesW) + BytesW(a)
  {
    Update(jobs, id, a, BusyW);
    Update(jobs, id, a, InHandW);
    Update(jobs, id, a, UnfinishedW);
    Update(jobs, id, a, DoneW);
    Update(jobs, id, a, FailedW);
    Update(jobs, id, a, BytesW);
  }

  lemma JobArrives(jobs: seq<Accepted>, job: Job)
    ensures var a := Accepted(job, Queued);
            && Total(jobs + [a], BusyW) == Total(jobs, BusyW)
            && Total(jobs + [a], InHandW) == Total(jobs, InHandW)
            && Total(jobs + [a], UnfinishedW) == Total(jobs, UnfinishedW) + 1
            && Total(jobs + [a], DoneW) == Total(jobs, DoneW)
            && Total(jobs + [a], FailedW) == Total(jobs, FailedW)
            && Total(jobs + [a], BytesW) == Total(jobs, BytesW)
  {
    var a := Accepted(job, Queued);
    Append(jobs, a, BusyW);
    Append(jobs, a, InHandW);
    Append(jobs, a, UnfinishedW);
    Append(jobs, a, DoneW);
    Append(jobs, a, FailedW);
    Append(jobs, a, BytesW);
  }

  /** Moving one job keeps the books when every counter moves with it. */
  lemma LedgerMove(s: Sys, t: Sys, id: nat)
    requires Ledger(s) && id < |s.jobs| && |t.jobs| == |s.jobs| && t.jobs == s.jobs[id := t.jobs[id]]
    requires t.submit == s.submit && t.core.queued == s.core.queued && t.core.queue == s.core.queue
    requires t.core.completed + DoneW(s.jobs[id]) == s.core.completed + DoneW(t.jobs[id])
    requires t.core.failed + FailedW(s.jobs[id]) == s.core.failed + FailedW(t.jobs[id])
    requires t.core.bytes + BytesW(s.jobs[id]) == s.core.bytes + BytesW(t.jobs[id])
    requires t.core.jobsWG + UnfinishedW(s.jobs[id]) == s.core.jobsWG + UnfinishedW(t.jobs[id])
    requires t.idle + BusyW(t.jobs[id]) == s.idle + BusyW(s.jobs[id]) && t.exited == s.exited && t.workers == s.workers
    requires InHandW(t.jobs[id]) + DoneW(t.jobs[id]) == InHandW(s.jobs[id]) + DoneW(s.jobs[id])
    ensures Ledger(t)
  {
    JobMoves(s.jobs, id, t.jobs[id]);
  }

  lemma LedgerAdvance(s: Sys, id: nat)
    requires Ledger(s) && id < |s.jobs|
    ensures Ledger(AdvanceJob(s, id))
  {
    match s.jobs[id].stage
    case Running => LedgerMove(s, AdvanceJob(s, id), id);
    case Weighed => LedgerMove(s, AdvanceJob(s, id), id);
    case Counted => if s.submit.Nobody? && s.jobs[id].job.error.Some? { LedgerMove(s, AdvanceJob(s, id), id); }
    case Joined => LedgerMove(s, AdvanceJob(s, id), id);
    case Completed => if 0 < s.core.jobsWG { LedgerMove(s, AdvanceJob(s, id), id); }
    case _ =>
  }

  lemma LedgerSend(s: Sys)
    requires Ledger(s) && s.submit.Announced?
    ensures Ledger(Step(s, TrySend))
  {
    JobArrives(s.jobs, s.submit.job);
  }

  lemma LedgerTake(s: Sys)
    requires Ledger(s) && Fifo(s) && s.core.queue != []
    ensures Ledger(Step(s, Take))
  {
    var id := s.core.queue[0];
    JobMoves(s.jobs, id, s.jobs[id].(stage := Running));
  }

  lemma LedgerKept(s: Sys, e: Event)
    requires Fifo(s) && Ledger(s)
    ensures Ledger(Step(s, e))
  {
    match e
    case TrySend => if s.submit.Announced? { LedgerSend(s); }
    case Take => if s.core.queue != [] { LedgerTake(s); }
    case Advance(id) => if id < |s.jobs| { LedgerAdvance(s, id); }
    case _ =>
  }

  lemma ErrorJoins(s: Sys, id: nat)
    requires Errors(s) && id < |s.jobs| && s.jobs[id].stage.Counted? && s.submit.Nobody? && s.jobs[id].job.error.Some?
    ensures Errors(AdvanceJob(s, id))
  {
    var t := AdvanceJob(s, id);
    assert forall j :: 0 <= j < |t.jobs| && j != id ==> t.jobs[j] == s.jobs[j];
    assert t.joined == s.joined + [id] && id !in s.joined;
  }

  /** A job moves on without its error being joined. */
  lemma ErrorsSame(s: Sys, t: Sys, id: nat)
    requires Errors(s) && id < |s.jobs| && |t.jobs| == |s.jobs| && t.jobs == s.jobs[id := t.jobs[id]]
    requires t.jobs[id].job == s.jobs[id].job && (ErrJoined(t.jobs[id]) <==> ErrJoined(s.jobs[id]))
    requires t.joined == s.joined && t.core.firstErr == s.core.firstErr
    ensures Errors(t)
  {
    assert forall j :: 0 <= j < |t.jobs| && j != id ==> t.jobs[j] == s.jobs[j];
  }

  lemma ErrorsAdvance(s: Sys, id: nat)
    requires Errors(s) && id < |s.jobs|
    ensures Errors(AdvanceJob(s, id))
  {
    var t := AdvanceJob(s, id);
    if t.joined != s.joined {
      ErrorJoins(s, id);
    } else if t != s {
      ErrorsSame(s, t, id);
    }
  }

  lemma ErrorsKept(s: Sys, e: Event)
    requires Fifo(s) && Errors(s)
    ensures Errors(Step(s, e))
  {
    match e
    case TrySend => ErrorsSend(s);
    case Take => ErrorsTake(s);
    case Advance(id) => if id < |s.jobs| { ErrorsAdvance(s, id); }
    case _ =>
  }

  lemma ErrorsSend(s: Sys)
    requires Errors(s)
    ensures Errors(Step(s, TrySend))
  {
  }

  lemma ErrorsTake(s: Sys)
    requires Fifo(s) && Errors(s)
    ensures Errors(Step(s, Take))
  {
    if s.core.queue != [] && s.core.queue[0] < |s.jobs| {
      assert s.jobs[s.core.queue[0]].stage.Queued?;
    }
  }

  /** Jobs, errors and the closed flag only move forward; once closed and idle
      nothing is left to happen to them. */
  ghost predicate Onward(s: Sys, t: Sys) {
    && |s.jobs| <= |t.jobs|
    && (forall j :: 0 <= j < |s.jobs| ==> t.jobs[j].job == s.jobs[j].job
                                          && (s.jobs[j].stage.Finished? ==> t.jobs[j].stage.Finished?))
    && s.core.firstErr <= t.core.firstErr && s.joined <= t.joined
    && (s.core.closed ==> t.core.closed && |t.jobs| == |s.jobs|)
    && (s.core.closed && AllFinished(s.jobs, |s.jobs|) ==> t.core.firstErr == s.core.firstErr)
  }

  lemma StepGoesOnward(s: Sys, e: Event)
    requires Fifo(s) && (s.core.closed ==> s.submit.Nobody?)
    ensures Onward(s, Step(s, e))
  {
  }

  lemma FlusherStays(s: Sys, t: Sys, f: Flusher)
    requires Onward(s, t) && FlusherOk(s, f)
    ensures FlusherOk(t, f)
  {
    if f.phase.Leaving? || f.phase.Returned? {
      var n := |f.phase.errs|;
      assert t.joined[..n] == s.joined[..n];
    }
  }

  lemma NothingOutstanding(s: Sys)
    requires Ledger(s) && s.core.jobsWG == 0
    ensures AllFinished(s.jobs, |s.jobs|)
  {
    forall j | 0 <= j < |s.jobs| ensures s.jobs[j].stage.Finished? {
      AtLeast(s.jobs, j, UnfinishedW);
    }
  }

  lemma FlusherMoves(s: Sys, e: Event)
    requires Inv(s)
    requires e.Shut? || e.Drain? || e.ReadErr? || e.Return?
    requires e.who < |s.flushers|
    ensures FlusherOk(Step(s, e), Step(s, e).flushers[e.who])
  {
    var t := Step(s, e);
    StepGoesOnward(s, e);
    FlusherStays(s, t, s.flushers[e.who]);
    if e.Drain? && s.core.jobsWG == 0 {
      NothingOutstanding(s);
    }
    if e.ReadErr? {
      assert s.joined[..|s.core.firstErr|] == s.joined;
    }
  }

  lemma FlushersKept(s: Sys, e: Event, i: nat)
    requires Inv(s) && i < |Step(s, e).flushers|
    ensures FlusherOk(Step(s, e), Step(s, e).flushers[i])
  {
    var t := Step(s, e);
    StepGoesOnward(s, e);
    if i < |s.flushers| {
      if t.flushers[i] == s.flushers[i] {
        FlusherStays(s, t, s.flushers[i]);
      } else {
        FlusherMoves(s, e);
      }
    }
  }

  lemma StepKeepsInv(s: Sys, e: Event)
    requires Inv(s)
    ensures Inv(Step(s, e))
  {
    FifoKept(s, e);
    LedgerKept(s, e);
    ErrorsKept(s, e);
    forall i | 0 <= i < |Step(s, e).flushers| ensures FlusherOk(Step(s, e), Step(s, e).flushers[i]) {
      FlushersKept(s, e, i);
    }
    assert Step(s, e).core.closed ==> Step(s, e).submit.Nobody?;
  }

  lemma {:induction false} Reachable(workers: int, queueSize: int, events: seq<Event>)
    ensures Inv(Exec(Init(workers, queueSize), events))
  {
    if events == [] {
      InitInv(workers, queueSize);
    } else {
      Reachable(workers, queueSize, events[..|events| - 1]);
      StepKeepsInv(Exec(Init(workers, queueSize), events[..|events| - 1]), events[|events| - 1]);
    }
  }

  // ---------------------------------------------------------------------
  // Main results
  // ---------------------------------------------------------------------

  /** Every accepted job is in the channel, in a worker's hands or completed;
      the channel never overflows, no send is attempted once it is closed, and
      `completed` runs ahead of `queued` by at most one. */
  lemma JobsAreConserved(workers: int, queueSize: int, events: seq<Event>)
    ensures var s := Exec(Init(workers, queueSize), events);
            && |s.jobs| == |s.core.queue| + Total(s.jobs, InHandW) + s.core.completed
            && |s.core.queue| <= s.core.capacity
            && Total(s.jobs, InHandW) <= s.workers
            && s.core.completed <= s.core.queued + 1
            && (s.core.closed ==> !s.submit.Announced?)
  {
    Reachable(workers, queueSize, events);
    Dominated(Exec(Init(workers, queueSize), events).jobs, InHandW, BusyW);
  }

  lemma ConfigurationIsFixed(s: Sys, e: Event)
    ensures Step(s, e).core.capacity == s.core.capacity && Step(s, e).workers == s.workers
  {
  }

  lemma {:induction false} Configured(workers: int, queueSize: int, events: seq<Event>)
    ensures var s := Exec(Init(workers, queueSize), events);
            && s.core.capacity == (if queueSize < 1 then 1 else queueSize)
            && s.workers == (if workers < 1 then 1 else workers)
  {
    if events != [] {
      Configured(workers, queueSize, events[..|events| - 1]);
      ConfigurationIsFixed(Exec(Init(workers, queueSize), events[..|events| - 1]), events[|events| - 1]);
    }
  }

  /** A Submit, its steps uninterrupted. */
  function Submitted(s: Sys, job: Job): Sys {
    Step(Step(Step(s, BeginSubmit(job)), TrySend), NoteQueued)
  }

  /** Which jobs are accepted, in any run: a send goes through exactly when the channel
      holds fewer jobs than it was made for, and a Submit that nothing interrupts is
      accepted exactly when the writer is open as well. One turned away leaves no trace. */
  lemma AcceptedIff(workers: int, queueSize: int, events: seq<Event>, job: Job)
    ensures var s := Exec(Init(workers, queueSize), events);
            var room := |s.core.queue| < if queueSize < 1 then 1 else queueSize;
            s.submit.Announced? ==>
              var t := Step(s, TrySend);
              && t.jobs == (if room then s.jobs + [Accepted(s.submit.job, Queued)] else s.jobs)
              && t.core.queue == (if room then s.core.queue + [|s.jobs|] else s.core.queue)
              && t.core.jobsWG == (if room then s.core.jobsWG else s.core.jobsWG - 1)
              && t.submit == if room then Sent else Nobody
    ensures var s := Exec(Init(workers, queueSize), events);
            var room := |s.core.queue| < if queueSize < 1 then 1 else queueSize;
            s.submit.Nobody? ==>
              var t := Submitted(s, job);
              if room && !s.core.closed
              then && t.jobs == s.jobs + [Accepted(job, Queued)] && t.core.queue == s.core.queue + [|s.jobs|]
                   && t.core.queued == s.core.queued + 1 && t.submit.Nobody?
              else t == s
  {
    Reachable(workers, queueSize, events);
    Configured(workers, queueSize, events);
  }

  lemma ExitedKept(s: Sys, e: Event)
    requires Inv(s) && (0 < s.exited ==> s.core.closed && s.core.queue == [])
    ensures 0 < Step(s, e).exited ==> Step(s, e).core.closed && Step(s, e).core.queue == []
  {
  }

  lemma {:induction false} WorkersStay(workers: int, queueSize: int, events: seq<Event>)
    ensures var s := Exec(Init(workers, queueSize), events);
            0 < s.exited ==> s.core.closed && s.core.queue == []
  {
    if events != [] {
      WorkersStay(workers, queueSize, events[..|events| - 1]);
      Reachable(workers, queueSize, events[..|events| - 1]);
      ExitedKept(Exec(Init(workers, queueSize), events[..|events| - 1]), events[|events| - 1]);
    }
  }

  lemma TakeStarts(s: Sys)
    requires Fifo(s) && Ledger(s) && s.core.queue != [] && s.exited == 0 && Total(s.jobs, BusyW) < s.workers
    ensures |s.started| < |s.jobs|
    ensures Step(s, Take).started == s.started + [|s.started|]
    ensures Step(s, Take).jobs == s.jobs[|s.started| := s.jobs[|s.started|].(stage := Running)]
  {
  }

  /** In any run the oldest job in the channel is taken whenever a worker has neither a
      job nor gone; and workers go only when the writer is closed and the channel empty. */
  lemma {:induction false} FreeWorkersTake(workers: int, queueSize: int, events: seq<Event>)
    ensures var s := Exec(Init(workers, queueSize), events);
            && (0 < s.exited ==> s.core.closed && s.core.queue == [])
            && (s.core.queue != [] && Total(s.jobs, BusyW) < (if workers < 1 then 1 else workers) ==>
                  && |s.started| < |s.jobs|
                  && Step(s, Take).started == s.started + [|s.started|]
                  && Step(s, Take).jobs == s.jobs[|s.started| := s.jobs[|s.started|].(stage := Running)])
  {
    var s := Exec(Init(workers, queueSize), events);
    Reachable(workers, queueSize, events);
    Configured(workers, queueSize, events);
    WorkersStay(workers, queueSize, events);
    if s.core.queue != [] && Total(s.jobs, BusyW) < s.workers { TakeStarts(s); }
  }

  /** Jobs are run in the order they were accepted, each at most once. */
  lemma JobsRunInOrder(workers: int, queueSize: int, events: seq<Event>)
    ensures var s := Exec(Init(workers, queueSize), events);
            && |s.started| <= |s.jobs|
            && (forall k :: 0 <= k < |s.started| ==> s.started[k] == k)
            && (forall j :: 0 <= j < |s.jobs| ==> (s.jobs[j].stage.Queued? <==> j >= |s.started|))
  {
    Reachable(workers, queueSize, events);
  }

  function ErrorW(a: Accepted): nat { if a.job.error.Some? then 1 else 0 }
  function SizeW(a: Accepted): nat { if a.job.bytes > 0 then a.job.bytes else 0 }

  /** When Close returns every accepted job has run, `completed`, `queued` and
      the number of accepted jobs agree, `failed` and `bytes` are what the jobs add
      up to, and the error returned joins exactly the errors of the failed jobs,
      each once. */
  lemma CloseDrains(workers: int, queueSize: int, events: seq<Event>, who: nat)
    requires var s := Exec(Init(workers, queueSize), events);
             who < |s.flushers| && s.flushers[who].closes && s.flushers[who].phase.Returned?
    ensures var s := Exec(Init(workers, queueSize), events);
            var errs := s.flushers[who].phase.errs;
            && s.core.completed == s.core.queued == |s.jobs| == |s.started|
            && s.core.failed == Total(s.jobs, ErrorW) && s.core.bytes == Total(s.jobs, SizeW)
            && |errs| == |s.joined|
            && (forall k :: 0 <= k < |errs| ==>
                  s.joined[k] < |s.jobs| && s.jobs[s.joined[k]].job.error == Some(errs[k]))
            && (forall j :: 0 <= j < |s.jobs| ==> (s.jobs[j].job.error.Some? <==> j in s.joined))
            && (forall k, l :: 0 <= k < l < |s.joined| ==> s.joined[k] != s.joined[l])
  {
    Reachable(workers, queueSize, events);
    var s := Exec(Init(workers, queueSize), events);
    assert FlusherOk(s, s.flushers[who]);
    Vanishes(s.jobs, InHandW);
    Dominated(s.jobs, FailedW, ErrorW);
    Dominated(s.jobs, ErrorW, FailedW);
    Dominated(s.jobs, BytesW, SizeW);
    Dominated(s.jobs, SizeW, BytesW);
    forall j | 0 <= j < |s.jobs| && s.jobs[j].job.error.Some? ensures j in s.joined {
      assert ErrJoined(s.jobs[j]);
    }
  }

  /** Flush reports at least every failure among the jobs accepted before it was
      called, and those jobs are done. */
  lemma FlushCoversEarlierJobs(workers: int, queueSize: int, events: seq<Event>, who: nat, j: nat)
    requires var s := Exec(Init(workers, queueSize), events);
             who < |s.flushers| && s.flushers[who].phase.Returned? && j < s.flushers[who].upTo
    ensures var s := Exec(Init(workers, queueSize), events);
            var errs := s.flushers[who].phase.errs;
            && j < |s.jobs| && s.jobs[j].stage.Finished?
            && (s.jobs[j].job.error.Some? ==> s.jobs[j].job.error.value in errs)
  {
    Reachable(workers, queueSize, events);
    var s := Exec(Init(workers, queueSize), events);
    var errs := s.flushers[who].phase.errs;
    assert FlusherOk(s, s.flushers[who]);
    if s.jobs[j].job.error.Some? {
      var k :| 0 <= k < |errs| && s.joined[..|errs|][k] == j;
      assert errs[k] == s.core.firstErr[k];
    }
  }

  // ---------------------------------------------------------------------
  // Close is not kept waiting for ever
  // ---------------------------------------------------------------------

  /** What a run keeps besides: there are workers, they stay until the channel is closed
      and empty, and only failed jobs come to join an error. */
  ghost predicate Sound(s: Sys) {
    && Inv(s) && 1 <= s.workers
    && (0 < s.exited ==> s.core.closed && s.core.queue == [])
    && (forall j :: 0 <= j < |s.jobs| && s.jobs[j].stage.Counted? ==> s.jobs[j].job.error.Some?)
  }

  lemma CountedKept(s: Sys, e: Event)
    requires forall j :: 0 <= j < |s.jobs| && s.jobs[j].stage.Counted? ==> s.jobs[j].job.error.Some?
    ensures var t := Step(s, e);
            forall j :: 0 <= j < |t.jobs| && t.jobs[j].stage.Counted? ==> t.jobs[j].job.error.Some?
  {
  }

  lemma SoundKept(s: Sys, e: Event)
    requires Sound(s)
    ensures Sound(Step(s, e))
  {
    StepKeepsInv(s, e);
    ExitedKept(s, e);
    CountedKept(s, e);
    ConfigurationIsFixed(s, e);
  }

  lemma {:induction false} AlwaysSound(workers: int, queueSize: int, events: seq<Event>)
    ensures Sound(Exec(Init(workers, queueSize), events))
  {
    if events == [] {
      InitInv(workers, queueSize);
    } else {
      AlwaysSound(workers, queueSize, events[..|events| - 1]);
      SoundKept(Exec(Init(workers, queueSize), events[..|events| - 1]), events[|events| - 1]);
    }
  }

  lemma {:induction false} OneThenMore(s: Sys, e: Event, more: seq<Event>)
    ensures Exec(s, [e] + more) == Exec(Step(s, e), more)
  {
    if more == [] {
      Unroll(s, [], e);
      assert [e] + more == [] + [e];
    } else {
      var front, last := more[..|more| - 1], more[|more| - 1];
      OneThenMore(s, e, front);
      Unroll(s, [e] + front, last);
      Unroll(Step(s, e), front, last);
      assert [e] + more == [e] + front + [last] && more == front + [last];
    }
  }

  lemma Unroll(s: Sys, events: seq<Event>, e: Event)
    ensures Exec(s, events + [e]) == Step(Exec(s, events), e)
  {
    assert (events + [e])[..|events|] == events;
  }

  function SubmitLeft(submit: Submitting): nat {
    match submit
    case Announced(_) => 2
    case Sent => 1
    case Nobody => 0
  }

  /** The steps a job has left to take. */
  function Left(a: Accepted): nat {
    match a.stage
    case Queued => 6
    case Running => 5
    case Weighed => 4
    case Counted => 3
    case Joined => 2
    case Completed => 1
    case Finished => 0
  }

  ghost predicate Onwards(s: Sys, t: Sys) {
    && Sound(t) && t.flushers == s.flushers && t.core.closed == s.core.closed
    && (SubmitLeft(t.submit) < SubmitLeft(s.submit)
        || (t.submit == s.submit && Total(t.jobs, Left) < Total(s.jobs, Left)))
  }

  lemma SubmitMoves(s: Sys)
    requires Sound(s) && !s.submit.Nobody?
    ensures Onwards(s, Step(s, if s.submit.Announced? then TrySend else NoteQueued))
  {
    SoundKept(s, if s.submit.Announced? then TrySend else NoteQueued);
  }

  lemma JobMovesOn(s: Sys, id: nat)
    requires Sound(s) && s.submit.Nobody? && id < |s.jobs| && Busy(s.jobs[id])
    ensures Onwards(s, Step(s, Advance(id)))
  {
    SoundKept(s, Advance(id));
    WorkDrops(s, id);
  }

  lemma WorkDrops(s: Sys, id: nat)
    requires Ledger(s) && s.submit.Nobody? && id < |s.jobs| && Busy(s.jobs[id])
    requires s.jobs[id].stage.Counted? ==> s.jobs[id].job.error.Some?
    ensures var t := AdvanceJob(s, id);
            && t.submit == s.submit && t.flushers == s.flushers && t.core.closed == s.core.closed
            && Total(t.jobs, Left) < Total(s.jobs, Left)
  {
    AtLeast(s.jobs, id, UnfinishedW);
    Update(s.jobs, id, AdvanceJob(s, id).jobs[id], Left);
  }

  lemma NextTaken(s: Sys)
    requires Sound(s) && s.submit.Nobody? && s.core.queue != [] && Total(s.jobs, BusyW) == 0
    ensures Onwards(s, Step(s, Take))
  {
    SoundKept(s, Take);
    TakeStarts(s);
    Update(s.jobs, |s.started|, Step(s, Take).jobs[|s.started|], Left);
  }

  /** In any state the submitters and workers can bring all jobs to their end. */
  lemma {:induction false} JobsCanFinish(s: Sys) returns (more: seq<Event>)
    requires Sound(s)
    ensures var t := Exec(s, more);
            && Sound(t) && t.submit.Nobody? && AllFinished(t.jobs, |t.jobs|) && t.core.queue == [] && t.core.jobsWG == 0
            && t.flushers == s.flushers && t.core.closed == s.core.closed
    decreases SubmitLeft(s.submit), Total(s.jobs, Left)
  {
    var e: Event;
    if !s.submit.Nobody? {
      e := if s.submit.Announced? then TrySend else NoteQueued;
      SubmitMoves(s);
    } else if 0 < Total(s.jobs, BusyW) {
      var id := Witness(s.jobs, BusyW);
      e := Advance(id);
      JobMovesOn(s, id);
    } else if s.core.queue != [] {
      e := Take;
      NextTaken(s);
    } else {
      NothingLeft(s);
      return [];
    }
    more := JobsCanFinish(Step(s, e));
    OneThenMore(s, e, more);
    more := [e] + more;
  }

  lemma NothingLeft(s: Sys)
    requires Inv(s) && s.submit.Nobody? && Total(s.jobs, BusyW) == 0 && s.core.queue == []
    ensures AllFinished(s.jobs, |s.jobs|) && s.core.jobsWG == 0
  {
    forall j | 0 <= j < |s.jobs| ensures s.jobs[j].stage.Finished? {
      AtLeast(s.jobs, j, BusyW);
    }
    Vanishes(s.jobs, UnfinishedW);
  }

  /** All jobs finished and the channel closed, the workers can all leave. */
  lemma {:induction false} WorkersCanLeave(s: Sys) returns (more: seq<Event>)
    requires Sound(s) && s.core.closed && s.core.queue == [] && AllFinished(s.jobs, |s.jobs|)
    ensures var t := Exec(s, more); t == s.(idle := 0, exited := s.workers) && Sound(t)
    decreases s.idle
  {
    Vanishes(s.jobs, BusyW);
    if s.idle == 0 { return []; }
    SoundKept(s, Exit);
    more := WorkersCanLeave(Step(s, Exit));
    OneThenMore(s, Exit, more);
    more := [Exit] + more;
  }

  function CloseLeft(phase: Phase): nat {
    match phase
    case Starting => 4
    case Waiting => 3
    case Drained => 2
    case Leaving(_) => 1
    case Returned(_) => 0
  }

  function NextOfClose(phase: Phase, who: nat): Event {
    match phase
    case Starting => Shut(who)
    case Waiting => Drain(who)
    case Drained => ReadErr(who)
    case _ => Return(who)
  }

  /** Nothing is in the way of a Close: no submit in progress, every job finished. */
  ghost predicate Idle(s: Sys) {
    Sound(s) && s.submit.Nobody? && AllFinished(s.jobs, |s.jobs|) && s.core.queue == [] && s.core.jobsWG == 0
  }

  lemma CloseMoves(s: Sys, who: nat)
    requires Idle(s) && who < |s.flushers| && s.flushers[who].closes && !s.flushers[who].phase.Returned?
    requires s.flushers[who].phase.Leaving? ==> s.exited == s.workers
    ensures var t := Step(s, NextOfClose(s.flushers[who].phase, who));
            && Idle(t) && |t.flushers| == |s.flushers| && t.flushers[who].closes
            && CloseLeft(t.flushers[who].phase) == CloseLeft(s.flushers[who].phase) - 1
  {
    SoundKept(s, NextOfClose(s.flushers[who].phase, who));
    CloseSteps(s, who);
  }

  lemma CloseSteps(s: Sys, who: nat)
    requires s.submit.Nobody? && s.core.jobsWG == 0
    requires who < |s.flushers| && s.flushers[who].closes && !s.flushers[who].phase.Returned?
    requires s.flushers[who].phase.Leaving? ==> s.exited == s.workers
    ensures var t := Step(s, NextOfClose(s.flushers[who].phase, who));
            && |t.flushers| == |s.flushers| && t.flushers[who].closes
            && CloseLeft(t.flushers[who].phase) == CloseLeft(s.flushers[who].phase) - 1
            && t.submit == s.submit && t.jobs == s.jobs && t.core.queue == s.core.queue && t.core.jobsWG == 0
  {
  }

  lemma {:induction false} IdleCloseReturns(s: Sys, who: nat) returns (more: seq<Event>)
    requires Idle(s) && who < |s.flushers| && s.flushers[who].closes
    ensures var t := Exec(s, more); who < |t.flushers| && t.flushers[who].closes && t.flushers[who].phase.Returned?
    decreases CloseLeft(s.flushers[who].phase)
  {
    var f := s.flushers[who];
    if f.phase.Returned? { return []; }
    var first, t := [], s;
    if f.phase.Leaving? {
      assert FlusherOk(s, f);
      first := WorkersCanLeave(s);
      t := Exec(s, first);
    }
    CloseMoves(t, who);
    var e := NextOfClose(f.phase, who);
    var rest := IdleCloseReturns(Step(t, e), who);
    OneThenMore(t, e, rest);
    SomeThenMore(s, first, [e] + rest);
    more := first + ([e] + rest);
  }

  lemma {:induction false} SomeThenMore(s: Sys, some: seq<Event>, more: seq<Event>)
    ensures Exec(s, some + more) == Exec(Exec(s, some), more)
  {
    if more == [] {
      assert some + more == some;
    } else {
      var front, last := more[..|more| - 1], more[|more| - 1];
      SomeThenMore(s, some, front);
      Unroll(s, some + front, last);
      Unroll(Exec(s, some), front, last);
      LastSplit(some, more);
    }
  }

  lemma LastSplit<T>(a: seq<T>, b: seq<T>)
    requires b != []
    ensures a + b == a + b[..|b| - 1] + [b[|b| - 1]]
    ensures b == b[..|b| - 1] + [b[|b| - 1]]
  {
  }

  /** A Close can always return: whatever state the run is in, the submitter, the workers
      and the call itself can bring it there, and then every accepted job has run. */
  lemma {:induction false} CloseCanReturn(workers: int, queueSize: int, before: seq<Event>, who: nat)
    returns (after: seq<Event>)
    requires var s := Exec(Init(workers, queueSize), before);
             who < |s.flushers| && s.flushers[who].closes
    ensures var t := Exec(Init(workers, queueSize), before + after);
            && who < |t.flushers| && t.flushers[who].phase.Returned?
            && t.core.completed == |t.jobs| == |t.started|
  {
    var init := Init(workers, queueSize);
    var s := Exec(init, before);
    AlwaysSound(workers, queueSize, before);
    var first := JobsCanFinish(s);
    var rest := IdleCloseReturns(Exec(s, first), who);
    after := first + rest;
    SomeThenMore(s, first, rest);
    SomeThenMore(init, before, after);
    CloseDrains(workers, queueSize, before + after, who);
  }
}
