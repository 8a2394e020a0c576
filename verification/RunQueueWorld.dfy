/**
 All threads of one run queue. A step is one locked region of one thread, or the start of a task outside
 the lock; between steps any other thread may run and the clock may advance by any amount.
 */
module RunQueueWorld {
  import opened Common
  import Core = RunQueueCore
  import opened RunQueueCore
  import opened RunQueueInvariant

  /** `ran` tells whether the task was called: it is not when the job was cancelled first. */
  datatype Worker = Idle | Claimed(serial: nat) | Executing(serial: nat, ran: bool) | Exited

  /**
   History: `executed` lists the serials of the tasks that were called, in order; `reported` holds what each
   worker came back with, Cancelled if it did not call the task.
   */
  datatype World = World(q: Queue, workers: seq<Worker>, clock: nat, executed: seq<nat>, reported: map<nat, Status>)

  datatype Op =
    | Submit(r: Request, ids: seq<nat>)
    | Poll(worker: nat)
    | Begin(worker: nat)
    | Finish(worker: nat, result: Status)
    | Look(id: nat)
    | InterruptSession(key: string)
    | InterruptRun(id: nat)
    | Abandon(id: nat)
    | Shutdown
    | GetStatus

  datatype Step = Step(op: Op, elapsed: nat)

  function Init(config: Config, workers: nat): World {
    World(Core.Init(config), seq(workers, i => Idle), 0, [], map[])
  }

  /** The position of the job with a serial, or the length of the list. */
  function Position(jobs: seq<Job>, serial: nat, i: nat): (r: nat)
    requires i <= |jobs|
    ensures i <= r <= |jobs|
    ensures r < |jobs| ==> jobs[r].serial == serial
    ensures forall k :: i <= k < r ==> jobs[k].serial != serial
    decreases |jobs| - i
  {
    if i == |jobs| || jobs[i].serial == serial then i else Position(jobs, serial, i + 1)
  }

  function PollStep(w: World, k: nat): World {
    if k >= |w.workers| || !w.workers[k].Idle? then w
    else if w.q.shuttingDown then w.(workers := w.workers[k := Exited])
    else
      var (i, q) := ScanFrom(w.q, w.clock, 0);
      if i.Some? && i.value < |q.jobs| then
        w.(q := q, workers := w.workers[k := Claimed(q.jobs[i.value].serial)])
      else w.(q := q)
  }

  function BeginStep(w: World, k: nat): World {
    if k >= |w.workers| || !w.workers[k].Claimed? then w
    else
      var s := w.workers[k].serial;
      var i := Position(w.q.jobs, s, 0);
      if i == |w.q.jobs| then w
      else if w.q.jobs[i].cancelled then w.(workers := w.workers[k := Executing(s, false)])
      else w.(workers := w.workers[k := Executing(s, true)], executed := w.executed + [s])
  }

  function FinishStep(w: World, k: nat, result: Status): World {
    if k >= |w.workers| || !w.workers[k].Executing? then w
    else
      var i := Position(w.q.jobs, w.workers[k].serial, 0);
      if i == |w.q.jobs| then w
      else
        var outcome := if w.workers[k].ran then result else Cancelled;
        w.(q := Core.Finish(w.q, i, outcome, w.clock), workers := w.workers[k := Idle],
           reported := w.reported[w.workers[k].serial := outcome])
  }

  function Next(w0: World, step: Step): World {
    var w := w0.(clock := w0.clock + step.elapsed);
    match step.op
    case Submit(r, ids) => w.(q := Core.Submit(w.q, r, ids, w.clock).2)
    case Poll(k) => PollStep(w, k)
    case Begin(k) => BeginStep(w, k)
    case Finish(k, result) => FinishStep(w, k, result)
    case Look(id) => w.(q := CollectOnce(w.q, id).1)
    case InterruptSession(key) => w.(q := Core.InterruptSession(w.q, key, w.clock))
    case InterruptRun(id) => w.(q := Core.InterruptRun(w.q, id, w.clock).1)
    case Abandon(id) => w.(q := Core.Abandon(w.q, id, w.clock).1)
    case Shutdown => w.(q := Core.Shutdown(w.q, w.clock))
    case GetStatus => w.(q := Purge(w.q, w.clock))
  }

  // ---- how a queue changes, seen through serial numbers ------------------------------------------

  ghost predicate Has(jobs: seq<Job>, state: State, s: nat) {
    exists i :: 0 <= i < |jobs| && jobs[i].state == state && jobs[i].serial == s
  }

  /** No job starts or stops running; pending jobs stay, are dropped, or are new. */
  ghost predicate Evolves(q: Queue, q': Queue) {
    && (forall s: nat :: Has(q'.jobs, Running, s) <==> Has(q.jobs, Running, s))
    && (forall s: nat :: Has(q'.jobs, Pending, s) ==>
          Has(q.jobs, Pending, s) || (s >= q.counters.submitted && !q.shuttingDown))
    && (forall s: nat :: s in q'.dropped ==> s in q.dropped || Has(q.jobs, Pending, s))
    && q.counters.submitted <= q'.counters.submitted
    && q'.config == q.config
    && (q.shuttingDown ==> q'.shuttingDown)
  }

  lemma EvolvesRefl(q: Queue)
    ensures Evolves(q, q)
  {
  }

  lemma EvolvesTrans(a: Queue, b: Queue, c: Queue)
    requires Evolves(a, b) && Evolves(b, c) && QueueInv(b)
    requires a.counters.submitted == b.counters.submitted
    ensures Evolves(a, c)
  {
    hide Has, QueueInv;
    forall s: nat | Has(b.jobs, Pending, s)
      ensures s < b.counters.submitted
    {
      HasBelow(b, s);
    }
  }

  lemma HasUpdate(jobs: seq<Job>, i: nat, j: Job, state: State)
    requires i < |jobs| && j.serial == jobs[i].serial
    ensures j.state == state ==> Has(jobs[i := j], state, j.serial)
    ensures j.state == jobs[i].state ==> forall s: nat :: Has(jobs[i := j], state, s) <==> Has(jobs, state, s)
    ensures jobs[i].state != state && j.state != state ==>
              forall s: nat :: Has(jobs[i := j], state, s) <==> Has(jobs, state, s)
    ensures j.state != state ==> forall s: nat :: Has(jobs[i := j], state, s) ==> Has(jobs, state, s)
    ensures jobs[i].state == state ==> Has(jobs, state, j.serial)
    ensures forall s: nat :: s != j.serial ==> (Has(jobs[i := j], state, s) <==> Has(jobs, state, s))
  {
    var upd := jobs[i := j];
    if j.state == state { assert upd[i].serial == j.serial; }
    forall s: nat | Has(upd, state, s) && (s != j.serial || j.state == jobs[i].state || j.state != state)
      ensures Has(jobs, state, s)
    {
      var k :| 0 <= k < |upd| && upd[k].state == state && upd[k].serial == s;
      assert k == i ==> jobs[k].serial == s;
      assert jobs[k].state == state && jobs[k].serial == s;
    }
    forall s: nat | Has(jobs, state, s) && (s != j.serial || j.state == jobs[i].state || jobs[i].state != state)
      ensures Has(upd, state, s)
    {
      var k :| 0 <= k < |jobs| && jobs[k].state == state && jobs[k].serial == s;
      assert upd[k].state == state && upd[k].serial == s;
    }
  }

  lemma HasUnique(jobs: seq<Job>, submitted: nat, i: nat, state: State)
    requires OrderOk(jobs, submitted) && i < |jobs| && jobs[i].state != state
    ensures !Has(jobs, state, jobs[i].serial)
  {
  }

  lemma CompleteEvolves(q: Queue, i: nat, now: nat)
    requires i < |q.jobs|
    ensures Evolves(q, CompletePending(q, i, now))
    ensures CompletePending(q, i, now).counters.submitted == q.counters.submitted
  {
    hide Has;
    var j := CompletePending(q, i, now).jobs[i];
    HasUpdate(q.jobs, i, j, Pending);
    HasUpdate(q.jobs, i, j, Running);
  }

  lemma FlagEvolves(q: Queue, i: nat, j: Job)
    requires i < |q.jobs| && j.serial == q.jobs[i].serial && j.state == q.jobs[i].state
    ensures Evolves(q, q.(jobs := q.jobs[i := j]))
  {
    hide Has;
    HasUpdate(q.jobs, i, j, Pending);
    HasUpdate(q.jobs, i, j, Running);
  }

  lemma HasDelete(jobs: seq<Job>, i: nat, state: State)
    requires i < |jobs| && jobs[i].state != state
    ensures forall s: nat :: Has(jobs[..i] + jobs[i + 1..], state, s) <==> Has(jobs, state, s)
  {
    var rest := jobs[..i] + jobs[i + 1..];
    assert forall k :: 0 <= k < |rest| ==> rest[k] == jobs[if k < i then k else k + 1];
    forall s: nat | Has(jobs, state, s)
      ensures Has(rest, state, s)
    {
      var k :| 0 <= k < |jobs| && jobs[k].state == state && jobs[k].serial == s;
      assert rest[if k < i then k else k - 1] == jobs[k];
    }
  }

  lemma RemoveEvolves(q: Queue, i: nat)
    requires i < |q.jobs| && q.jobs[i].state == Completed
    ensures Evolves(q, Remove(q, i))
  {
    hide Has;
    HasDelete(q.jobs, i, Pending);
    HasDelete(q.jobs, i, Running);
  }

  lemma AppendEvolves(q: Queue, id: nat, r: Request)
    requires !q.shuttingDown
    ensures Evolves(q, Append(q, id, r))
  {
    var more := Append(q, id, r).jobs;
    forall s: nat, state | Has(q.jobs, state, s)
      ensures Has(more, state, s)
    {
      var k :| 0 <= k < |q.jobs| && q.jobs[k].state == state && q.jobs[k].serial == s;
      assert more[k] == q.jobs[k];
    }
  }

  // ---- the loops -------------------------------------------------------------------------------

  /** What a cancelling pass leaves at a position. */
  predicate Settled(j: Job, who: Option<string>, pending: bool, running: bool) {
    (who.Some? ==> j.session == who.value) ==>
      (pending ==> j.state != Pending) && (running && j.state == Running ==> j.cancelled)
  }

  lemma {:induction false} CancelFromInv(q: Queue, who: Option<string>, pending: bool, running: bool, now: nat, i: nat)
    requires QueueInv(q) && i <= |q.jobs|
    ensures var r := CancelFrom(q, who, pending, running, now, i);
            && QueueInv(r) && Evolves(q, r)
            && r == q.(jobs := r.jobs, counters := r.counters, dropped := r.dropped)
            && r.counters.submitted == q.counters.submitted
            && (forall k :: 0 <= k < |q.jobs| ==> Later(q.jobs[k], r.jobs[k]))
            && (forall k :: 0 <= k < i ==> r.jobs[k] == q.jobs[k])
            && (forall k :: i <= k < |q.jobs| ==> Settled(r.jobs[k], who, pending, running))
    decreases |q.jobs| - i
  {
    hide QueueInv, Evolves, CompletePending, CancelToken;
    EvolvesRefl(q);
    if i < |q.jobs| {
      if who.Some? && q.jobs[i].session != who.value {
        CancelFromInv(q, who, pending, running, now, i + 1);
      } else if pending && q.jobs[i].state == Pending {
        CompleteStep(q, i, now);
        CancelFromInv(CompletePending(q, i, now), who, pending, running, now, i + 1);
        EvolvesTrans(q, CompletePending(q, i, now), CancelFrom(q, who, pending, running, now, i));
      } else if running && q.jobs[i].state == Running {
        CancelStep(q, i);
        CancelFromInv(CancelToken(q, i), who, pending, running, now, i + 1);
        EvolvesTrans(q, CancelToken(q, i), CancelFrom(q, who, pending, running, now, i));
      } else {
        CancelFromInv(q, who, pending, running, now, i + 1);
      }
    }
  }

  lemma CompleteStep(q: Queue, i: nat, now: nat)
    requires QueueInv(q) && i < |q.jobs| && q.jobs[i].state == Pending
    ensures var r := CompletePending(q, i, now);
            && QueueInv(r) && Evolves(q, r)
            && r == q.(jobs := q.jobs[i := r.jobs[i]], counters := r.counters, dropped := q.dropped + {q.jobs[i].serial})
            && |r.jobs| == |q.jobs| && r.counters.submitted == q.counters.submitted
            && Later(q.jobs[i], r.jobs[i]) && r.jobs[i].state == Completed
  {
    hide QueueInv, Evolves;
    CompletePendingInv(q, i, now);
    CompleteEvolves(q, i, now);
  }

  lemma CancelStep(q: Queue, i: nat)
    requires QueueInv(q) && i < |q.jobs|
    ensures var r := CancelToken(q, i);
            && QueueInv(r) && Evolves(q, r) && r == q.(jobs := q.jobs[i := q.jobs[i].(cancelled := true)])
  {
    hide QueueInv, Evolves;
    CancelTokenInv(q, i);
    FlagEvolves(q, i, q.jobs[i].(cancelled := true));
  }

  lemma {:induction false} PurgeFromInv(q: Queue, now: nat, i: nat)
    requires QueueInv(q) && i <= |q.jobs|
    ensures var r := PurgeFrom(q, now, i);
            && QueueInv(r) && Evolves(q, r) && r == q.(jobs := r.jobs, counters := r.counters)
            && r.counters.submitted == q.counters.submitted
    decreases |q.jobs| - i
  {
    hide QueueInv, Evolves;
    EvolvesRefl(q);
    if i < |q.jobs| {
      if Expired(q, i, now) {
        RemoveInv(q, i);
        RemoveEvolves(q, i);
        PurgeFromInv(Remove(q, i), now, i);
        EvolvesTrans(q, Remove(q, i), PurgeFrom(q, now, i));
      } else {
        PurgeFromInv(q, now, i + 1);
      }
    }
  }

  lemma PurgeInv(q: Queue, now: nat)
    requires QueueInv(q)
    ensures var r := Purge(q, now);
            && QueueInv(r) && Evolves(q, r) && r == q.(jobs := r.jobs, counters := r.counters)
            && r.counters.submitted == q.counters.submitted
  {
    hide QueueInv, Evolves;
    EvolvesRefl(q);
    PurgeFromInv(q, now, 0);
  }

  /** The job with serial s starts; everything else only evolves. */
  ghost predicate Starts(q: Queue, q': Queue, s: nat) {
    && (forall x: nat :: Has(q'.jobs, Running, x) <==> Has(q.jobs, Running, x) || x == s)
    && (forall x: nat :: Has(q'.jobs, Pending, x) ==> Has(q.jobs, Pending, x))
    && (forall x: nat :: x in q'.dropped ==> x in q.dropped || Has(q.jobs, Pending, x))
    && Has(q.jobs, Pending, s) && !Has(q'.jobs, Pending, s) && s !in q'.dropped
    && q'.counters.submitted == q.counters.submitted && q'.config == q.config
    && q'.shuttingDown == q.shuttingDown
  }

  lemma StartsAfter(a: Queue, b: Queue, c: Queue, s: nat)
    requires Evolves(a, b) && Starts(b, c, s) && a.counters.submitted == b.counters.submitted
    requires a.shuttingDown == b.shuttingDown && QueueInv(b)
    ensures Starts(a, c, s)
  {
    hide Has;
    assert Has(a.jobs, Pending, s) by { HasBelow(b, s); }
    forall x: nat | Has(c.jobs, Pending, x) || Has(b.jobs, Pending, x)
      ensures Has(a.jobs, Pending, x)
    {
      HasBelow(b, x);
    }
  }

  lemma HasBelow(q: Queue, s: nat)
    requires QueueInv(q) && Has(q.jobs, Pending, s)
    ensures s < q.counters.submitted
  {
  }

  lemma StartStarts(q: Queue, i: nat, s: nat)
    requires QueueInv(q) && i < |q.jobs| && q.jobs[i].state == Pending
    requires s < |q.sessions| && q.jobs[i].lane < |q.lanes|
    ensures Starts(q, Start(q, i, s), q.jobs[i].serial)
  {
    hide Has, CountersOk, LanesOk, SessionsOk, BackpressureOk, SteerOk;
    var j := q.jobs[i].(state := Running);
    HasUpdate(q.jobs, i, j, Running);
    HasUpdate(q.jobs, i, j, Pending);
    OrderUpdate(q.jobs, q.counters.submitted, i, j);
    HasUnique(q.jobs[i := j], q.counters.submitted, i, Pending);
  }

  lemma TrackEvolves(q: Queue, key: string)
    ensures Evolves(q, Track(q, key))
  {
    hide Has;
  }

  lemma {:induction false} ScanFromInv(q: Queue, now: nat, i: nat)
    requires QueueInv(q) && i <= |q.jobs|
    ensures var (k, r) := ScanFrom(q, now, i);
            && QueueInv(r) && r.shuttingDown == q.shuttingDown
            && (k.None? ==> Evolves(q, r) && r.counters.submitted == q.counters.submitted)
            && (k.Some? ==> k.value < |r.jobs| && Starts(q, r, r.jobs[k.value].serial))
    decreases |q.jobs| - i
  {
    hide QueueInv, Evolves, Starts, CompletePending, Start, Track;
    EvolvesRefl(q);
    if i < |q.jobs| {
      var j := q.jobs[i];
      if j.state != Pending {
        ScanFromInv(q, now, i + 1);
      } else if j.lane >= |q.lanes| {
        CompleteStep(q, i, now);
        ScanFromInv(CompletePending(q, i, now), now, i + 1);
        ScanOn(q, CompletePending(q, i, now), now, i + 1);
      } else {
        var t := Track(q, j.session);
        TrackInv(q, j.session);
        TrackEvolves(q, j.session);
        var s := FindSession(t.sessions, t.jobs[i].session, 0);
        if s == |t.sessions| {
          CompleteStep(t, i, now);
          EvolvesTrans(q, t, CompletePending(t, i, now));
          ScanFromInv(CompletePending(t, i, now), now, i + 1);
          ScanOn(q, CompletePending(t, i, now), now, i + 1);
        } else if CanRun(t, s, t.jobs[i].lane) {
          StartInv(t, i, s);
          StartStarts(t, i, s);
          StartsAfter(q, t, Start(t, i, s), j.serial);
          StartFrame(t, i, s);
        } else {
          ScanFromInv(t, now, i + 1);
          ScanOn(q, t, now, i + 1);
        }
      }
    }
  }

  lemma StartFrame(q: Queue, i: nat, s: nat)
    requires i < |q.jobs| && s < |q.sessions| && q.jobs[i].lane < |q.lanes|
    ensures |Start(q, i, s).jobs| == |q.jobs| && Start(q, i, s).jobs[i] == q.jobs[i].(state := Running)
    ensures Start(q, i, s).shuttingDown == q.shuttingDown
  {
  }

  /** A scan that goes on from b after q has evolved into b. */
  lemma ScanOn(q: Queue, b: Queue, now: nat, i: nat)
    requires Evolves(q, b) && q.counters.submitted == b.counters.submitted && q.shuttingDown == b.shuttingDown
    requires QueueInv(b) && i <= |b.jobs|
    requires var (k, r) := ScanFrom(b, now, i);
             && QueueInv(r) && (k.None? ==> Evolves(b, r))
             && (k.Some? ==> k.value < |r.jobs| && Starts(b, r, r.jobs[k.value].serial))
    ensures var (k, r) := ScanFrom(b, now, i);
            && (k.None? ==> Evolves(q, r))
            && (k.Some? ==> Starts(q, r, r.jobs[k.value].serial))
  {
    hide QueueInv, Evolves, Starts, ScanFrom;
    var (k, r) := ScanFrom(b, now, i);
    if k.None? { EvolvesTrans(q, b, r); } else { StartsAfter(q, b, r, r.jobs[k.value].serial); }
  }

  // ---- the operations --------------------------------------------------------------------------

  /** Once the flag is set, nothing is pending. */
  ghost predicate StoppedOk(q: Queue) {
    q.shuttingDown ==> forall s: nat :: !Has(q.jobs, Pending, s)
  }

  lemma StoppedKept(q: Queue, q': Queue)
    requires Evolves(q, q') && StoppedOk(q) && q'.shuttingDown == q.shuttingDown
    ensures StoppedOk(q')
  {
  }

  lemma {:induction false} ChooseIdFresh(jobs: seq<Job>, ids: seq<nat>, k: nat)
    requires k <= |ids|
    ensures ChooseId(jobs, ids, k).Some? ==>
              FindJob(jobs, ChooseId(jobs, ids, k).value, 0) == |jobs| && ChooseId(jobs, ids, k).value in ids
    decreases |ids| - k
  {
    if k < |ids| { ChooseIdFresh(jobs, ids, k + 1); }
  }

  lemma ApplyActionInv(q: Queue, r: Request, now: nat)
    requires QueueInv(q)
    ensures var p := ApplyAction(q, r, now);
            && QueueInv(p) && Evolves(q, p)
            && p == q.(jobs := p.jobs, counters := p.counters, dropped := p.dropped)
            && p.counters.submitted == q.counters.submitted
            && (forall k :: 0 <= k < |q.jobs| ==> Later(q.jobs[k], p.jobs[k]))
            && (forall k :: 0 <= k < |q.jobs| ==>
                  Settled(p.jobs[k], Some(r.session), r.action != Followup, r.action == Steer || r.action == Interrupt))
  {
    hide QueueInv, Evolves, CancelFrom, Later, Settled;
    CancelFromInv(q, Some(r.session), r.action != Followup, r.action == Steer || r.action == Interrupt, now, 0);
  }

  /** Submit has checked the limits before it supersedes older jobs; superseding only lowers them. */
  lemma ApplyActionAdmits(q: Queue, r: Request, id: nat, now: nat)
    requires QueueInv(q) && r.lane < LANES && FindJob(q.jobs, id, 0) == |q.jobs|
    requires q.config.maxTotal > 0 ==> |q.jobs| < q.config.maxTotal
    requires (r.action == Followup || r.action == Interrupt) && q.config.maxPending > 0 ==>
               Count(q.jobs, PendingOf(r.session)) < q.config.maxPending
    ensures Admits(ApplyAction(q, r, now), id, r)
  {
    hide QueueInv, Evolves, ApplyAction, FindJob, Count;
    ApplyActionInv(q, r, now);
    var p := ApplyAction(q, r, now);
    assert FindJob(p.jobs, id, 0) == |p.jobs|;
    if r.action == Followup || r.action == Interrupt {
      CountLess(q.jobs, p.jobs, PendingOf(r.session));
    } else {
      CountZero(p.jobs, PendingOf(r.session));
    }
  }

  lemma SubmitInv(q: Queue, r: Request, ids: seq<nat>, now: nat)
    requires QueueInv(q)
    ensures var p := Core.Submit(q, r, ids, now).2; QueueInv(p) && Evolves(q, p) && p.shuttingDown == q.shuttingDown
  {
    hide QueueInv, Evolves, Purge, ApplyAction, Append, Count, ChooseId, CountersOk;
    EvolvesRefl(q);
    var p := Purge(q, now);
    PurgeInv(q, now);
    var (status, id, r') := Core.Submit(q, r, ids, now);
    if status == Ok {
      ChooseIdFresh(p.jobs, ids, 0);
      TotalIsLength(p);
      ApplyActionInv(p, r, now);
      ApplyActionAdmits(p, r, id, now);
      AppendInv(ApplyAction(p, r, now), id, r);
      AppendEvolves(ApplyAction(p, r, now), id, r);
      EvolvesTrans(q, p, ApplyAction(p, r, now));
      EvolvesTrans(q, ApplyAction(p, r, now), r');
      AppendFrame(ApplyAction(p, r, now), id, r);
    }
  }

  lemma TotalIsLength(q: Queue)
    requires QueueInv(q)
    ensures q.counters.total == |q.jobs|
  {
  }

  lemma AppendFrame(q: Queue, id: nat, r: Request)
    ensures Append(q, id, r).shuttingDown == q.shuttingDown
  {
  }

  lemma InterruptSessionInv(q: Queue, key: string, now: nat)
    requires QueueInv(q)
    ensures var p := Core.InterruptSession(q, key, now);
            QueueInv(p) && Evolves(q, p) && p.shuttingDown == q.shuttingDown
  {
    hide QueueInv, CancelFrom, Has;
    var s := FindSession(q.sessions, key, 0);
    var q1 := if s == |q.sessions| then q
              else q.(sessions := q.sessions[s := q.sessions[s].(generation := q.sessions[s].generation + 1)]);
    if s < |q.sessions| { GenerationInv(q, s); }
    CancelFromInv(q1, Some(key), true, true, now, 0);
  }

  lemma CancelOneInv(q: Queue, i: nat, now: nat)
    requires QueueInv(q) && i < |q.jobs|
    ensures var p := CancelOne(q, i, now);
            QueueInv(p) && Evolves(q, p) && p.shuttingDown == q.shuttingDown
            && p.counters.submitted == q.counters.submitted
  {
    hide QueueInv, Evolves;
    EvolvesRefl(q);
    if q.jobs[i].state == Pending { CompleteStep(q, i, now); } else { CancelStep(q, i); }
  }

  lemma InterruptRunInv(q: Queue, id: nat, now: nat)
    requires QueueInv(q)
    ensures var p := Core.InterruptRun(q, id, now).1;
            QueueInv(p) && Evolves(q, p) && p.shuttingDown == q.shuttingDown
  {
    hide QueueInv, Evolves, CancelOne;
    EvolvesRefl(q);
    var i := FindJob(q.jobs, id, 0);
    if i < |q.jobs| { CancelOneInv(q, i, now); }
  }

  lemma RemoveStep(q: Queue, i: nat)
    requires QueueInv(q) && i < |q.jobs| && q.jobs[i].state == Completed
    ensures var r := Remove(q, i);
            && QueueInv(r) && Evolves(q, r) && r.shuttingDown == q.shuttingDown
            && r.counters.submitted == q.counters.submitted
  {
    hide QueueInv, Evolves;
    RemoveInv(q, i);
    RemoveEvolves(q, i);
  }

  lemma AbandonInv(q: Queue, id: nat, now: nat)
    requires QueueInv(q)
    ensures var p := Core.Abandon(q, id, now).1;
            QueueInv(p) && Evolves(q, p) && p.shuttingDown == q.shuttingDown
  {
    hide QueueInv, Evolves, Remove;
    EvolvesRefl(q);
    var i := FindJob(q.jobs, id, 0);
    if id != 0 && i < |q.jobs| {
      var q1 := q.(counters := q.counters.(abandoned := q.counters.abandoned + 1));
      AbandonedCountInv(q, q.counters.abandoned + 1);
      assert Evolves(q, q1) by { SameEvolves(q, q1); }
      if q.jobs[i].state == Running {
        var q2 := q1.(jobs := q1.jobs[i := q1.jobs[i].(abandoned := true)]);
        FlagInv(q1, i, q2.jobs[i]);
        FlagEvolves(q1, i, q2.jobs[i]);
        CancelStep(q2, i);
        EvolvesTrans(q, q1, q2);
        EvolvesTrans(q, q2, CancelToken(q2, i));
      } else if q.jobs[i].state == Pending {
        CompleteStep(q1, i, now);
        RemoveStep(CompletePending(q1, i, now), i);
        EvolvesTrans(q, q1, CompletePending(q1, i, now));
        EvolvesTrans(q, CompletePending(q1, i, now), Remove(CompletePending(q1, i, now), i));
      } else {
        RemoveStep(q1, i);
        EvolvesTrans(q, q1, Remove(q1, i));
      }
    }
  }

  lemma SameEvolves(q: Queue, q': Queue)
    requires q'.jobs == q.jobs && q'.dropped == q.dropped && q'.config == q.config
    requires q'.shuttingDown == q.shuttingDown && q'.counters.submitted == q.counters.submitted
    ensures Evolves(q, q')
  {
  }

  lemma CollectOnceInv(q: Queue, id: nat)
    requires QueueInv(q)
    ensures var p := CollectOnce(q, id).1;
            QueueInv(p) && Evolves(q, p) && p.shuttingDown == q.shuttingDown
  {
    hide QueueInv, Evolves, Remove;
    EvolvesRefl(q);
    var i := FindJob(q.jobs, id, 0);
    if i < |q.jobs| && q.jobs[i].state == Completed { RemoveStep(q, i); }
  }

  lemma ShutdownInv(q: Queue, now: nat)
    requires QueueInv(q) && StoppedOk(q)
    ensures var p := Core.Shutdown(q, now);
            QueueInv(p) && Evolves(q, p) && StoppedOk(p) && p.shuttingDown
  {
    hide QueueInv, CancelFrom;
    EvolvesRefl(q);
    if !q.shuttingDown {
      var q1 := q.(shuttingDown := true);
      assert QueueInv(q1) by { StopInv(q); }
      CancelFromInv(q1, None, true, true, now, 0);
    }
  }

  lemma StopInv(q: Queue)
    requires QueueInv(q)
    ensures QueueInv(q.(shuttingDown := true))
  {
  }

  /** The job with serial s, and no other, stops running. */
  ghost predicate Stops(q: Queue, q': Queue, s: nat) {
    && (forall x: nat :: Has(q'.jobs, Running, x) <==> Has(q.jobs, Running, x) && x != s)
    && (forall x: nat :: Has(q'.jobs, Pending, x) ==> Has(q.jobs, Pending, x))
    && q'.dropped == q.dropped && q'.config == q.config
    && q'.counters.submitted == q.counters.submitted && q'.shuttingDown == q.shuttingDown
  }

  lemma FinishInv(q: Queue, i: nat, result: Status, now: nat)
    requires QueueInv(q) && i < |q.jobs| && q.jobs[i].state == Running
    ensures var p := Core.Finish(q, i, result, now);
            QueueInv(p) && Stops(q, p, q.jobs[i].serial)
  {
    hide QueueInv, FinishRunning, Remove, Stops;
    var f := FinishRunning(q, i, result, now);
    FinishRunningInv(q, i, result, now);
    FinishStops(q, i, result, now);
    var k := FindJob(f.jobs, f.jobs[i].id, 0);
    if q.jobs[i].abandoned && k < |f.jobs| {
      SameId(f, k, i);
      RemoveStep(f, i);
      StopsOn(q, f, Remove(f, i), q.jobs[i].serial, i);
    }
  }

  lemma SameId(q: Queue, k: nat, i: nat)
    requires QueueInv(q) && k < |q.jobs| && i < |q.jobs| && q.jobs[k].id == q.jobs[i].id
    ensures k == i
  {
  }

  lemma FinishStops(q: Queue, i: nat, result: Status, now: nat)
    requires QueueInv(q) && i < |q.jobs| && q.jobs[i].state == Running
    ensures var f := FinishRunning(q, i, result, now);
            Stops(q, f, q.jobs[i].serial) && |f.jobs| == |q.jobs| && f.jobs[i].state == Completed
            && f.jobs[i].id == q.jobs[i].id
  {
    hide Has, CountersOk, LanesOk, SessionsOk, BackpressureOk, SteerOk, LeaveSession;
    var j := q.jobs[i].(state := Completed, result := result, completedAt := now);
    HasUpdate(q.jobs, i, j, Running);
    HasUpdate(q.jobs, i, j, Pending);
    OrderUpdate(q.jobs, q.counters.submitted, i, j);
    HasUnique(q.jobs[i := j], q.counters.submitted, i, Running);
  }

  lemma StopsOn(a: Queue, b: Queue, c: Queue, s: nat, i: nat)
    requires Stops(a, b, s) && i < |b.jobs| && b.jobs[i].state == Completed && c == Remove(b, i)
    ensures Stops(a, c, s)
  {
    hide Has;
    HasDelete(b.jobs, i, Running);
    HasDelete(b.jobs, i, Pending);
  }

  // ---- workers ---------------------------------------------------------------------------------

  predicate Busy(w: Worker) {
    w.Claimed? || w.Executing?
  }

  predicate Serves(w: Worker, s: nat) {
    Busy(w) && w.serial == s
  }

  /** Running jobs and busy workers correspond one to one. */
  ghost predicate WorkersOk(jobs: seq<Job>, workers: seq<Worker>) {
    && (forall k :: 0 <= k < |workers| && Busy(workers[k]) ==> Has(jobs, Running, workers[k].serial))
    && (forall s: nat :: Has(jobs, Running, s) ==> exists k :: 0 <= k < |workers| && Serves(workers[k], s))
    && (forall k, l :: 0 <= k < l < |workers| && Busy(workers[k]) && Busy(workers[l]) ==>
          workers[k].serial != workers[l].serial)
  }

  ghost predicate ExecutedOk(q: Queue, workers: seq<Worker>, executed: seq<nat>) {
    && Distinct(executed)
    && (forall s: nat :: s in executed ==> s < q.counters.submitted && s !in q.dropped && !Has(q.jobs, Pending, s))
    && (forall k :: 0 <= k < |workers| && Busy(workers[k]) ==>
          (workers[k].serial in executed <==> workers[k].Executing? && workers[k].ran))
  }

  ghost predicate WorldInv(w: World) {
    QueueInv(w.q) && StoppedOk(w.q) && WorkersOk(w.q.jobs, w.workers) && ExecutedOk(w.q, w.workers, w.executed)
  }

  lemma InitInv(config: Config, workers: nat)
    ensures WorldInv(Init(config, workers))
  {
    hide QueueInv;
    RunQueueInvariant.InitInv(config);
  }

  lemma EvolveWorld(w: World, q: Queue)
    requires WorldInv(w) && QueueInv(q) && Evolves(w.q, q) && StoppedOk(q)
    ensures WorldInv(w.(q := q))
  {
    hide QueueInv, StoppedOk, Has;
  }

  lemma PollInv(w: World, k: nat)
    requires WorldInv(w)
    ensures WorldInv(PollStep(w, k))
  {
    hide QueueInv, Has, ScanFrom;
    if k < |w.workers| && w.workers[k].Idle? {
      if w.q.shuttingDown {
        IdleLeaves(w, k);
      } else {
        ScanFromInv(w.q, w.clock, 0);
        var (i, q) := ScanFrom(w.q, w.clock, 0);
        if i.Some? { ClaimInv(w, k, q, q.jobs[i.value].serial); } else { EvolveWorld(w, q); }
      }
    }
  }

  lemma IdleLeaves(w: World, k: nat)
    requires WorldInv(w) && k < |w.workers| && w.workers[k].Idle?
    ensures WorldInv(w.(workers := w.workers[k := Exited]))
  {
    hide QueueInv, Has;
    var workers := w.workers[k := Exited];
    forall s: nat | Has(w.q.jobs, Running, s)
      ensures exists l :: 0 <= l < |workers| && Serves(workers[l], s)
    {
      var l :| 0 <= l < |w.workers| && Serves(w.workers[l], s);
      assert Serves(workers[l], s);
    }
  }

  lemma ClaimInv(w: World, k: nat, q: Queue, s: nat)
    requires WorldInv(w) && k < |w.workers| && w.workers[k].Idle? && QueueInv(q) && Starts(w.q, q, s)
    requires !q.shuttingDown
    ensures WorldInv(w.(q := q, workers := w.workers[k := Claimed(s)]))
  {
    hide QueueInv, Has;
    var workers := w.workers[k := Claimed(s)];
    NotRunning(w.q, s);
    forall x: nat | Has(q.jobs, Running, x)
      ensures exists l :: 0 <= l < |workers| && Serves(workers[l], x)
    {
      if x == s {
        assert Serves(workers[k], x);
      } else {
        var l :| 0 <= l < |w.workers| && Serves(w.workers[l], x);
        assert Serves(workers[l], x);
      }
    }
  }

  lemma NotRunning(q: Queue, s: nat)
    requires QueueInv(q) && Has(q.jobs, Pending, s)
    ensures !Has(q.jobs, Running, s)
  {
  }

  /** The worker's job is where its serial says. */
  lemma ServedPosition(w: World, k: nat)
    requires WorldInv(w) && k < |w.workers| && Busy(w.workers[k])
    ensures var i := Position(w.q.jobs, w.workers[k].serial, 0);
            i < |w.q.jobs| && w.q.jobs[i].state == Running && w.q.jobs[i].serial == w.workers[k].serial
  {
  }

  lemma BeginInv(w: World, k: nat)
    requires WorldInv(w)
    ensures WorldInv(BeginStep(w, k))
  {
    hide QueueInv, StoppedOk, Position;
    if k < |w.workers| && w.workers[k].Claimed? {
      ServedPosition(w, k);
      var s := w.workers[k].serial;
      var i := Position(w.q.jobs, s, 0);
      RunningFacts(w.q, i);
      ServeOn(w.q.jobs, w.workers, k, Executing(s, !w.q.jobs[i].cancelled));
      BeginExecuted(w, k, Executing(s, !w.q.jobs[i].cancelled));
    }
  }

  lemma RunningFacts(q: Queue, i: nat)
    requires QueueInv(q) && i < |q.jobs| && q.jobs[i].state == Running
    ensures q.jobs[i].serial < q.counters.submitted && q.jobs[i].serial !in q.dropped
    ensures !Has(q.jobs, Pending, q.jobs[i].serial)
  {
  }

  /** A worker that goes on serving the same job. */
  lemma ServeOn(jobs: seq<Job>, workers: seq<Worker>, k: nat, x: Worker)
    requires WorkersOk(jobs, workers) && k < |workers| && Busy(workers[k]) && Serves(x, workers[k].serial)
    ensures WorkersOk(jobs, workers[k := x])
  {
    hide Has;
    var upd := workers[k := x];
    forall s: nat | Has(jobs, Running, s)
      ensures exists l :: 0 <= l < |upd| && Serves(upd[l], s)
    {
      var l :| 0 <= l < |workers| && Serves(workers[l], s);
      assert Serves(upd[l], s);
    }
  }

  lemma BeginExecuted(w: World, k: nat, x: Worker)
    requires WorkersOk(w.q.jobs, w.workers) && ExecutedOk(w.q, w.workers, w.executed)
    requires k < |w.workers| && w.workers[k].Claimed? && x.Executing? && x.serial == w.workers[k].serial
    requires x.serial < w.q.counters.submitted && x.serial !in w.q.dropped && !Has(w.q.jobs, Pending, x.serial)
    ensures ExecutedOk(w.q, w.workers[k := x], if x.ran then w.executed + [x.serial] else w.executed)
  {
    hide Has;
  }

  lemma FinishWorld(w: World, k: nat, result: Status)
    requires WorldInv(w)
    ensures WorldInv(FinishStep(w, k, result))
  {
    hide QueueInv, StoppedOk, Position, Core.Finish, WorkersOk, ExecutedOk;
    if k < |w.workers| && w.workers[k].Executing? {
      ServedPosition(w, k);
      var i := Position(w.q.jobs, w.workers[k].serial, 0);
      var r := if w.workers[k].ran then result else Cancelled;
      FinishInv(w.q, i, r, w.clock);
      ReleaseWorker(w, k, Core.Finish(w.q, i, r, w.clock));
    }
  }

  lemma ReleaseWorker(w: World, k: nat, q: Queue)
    requires WorldInv(w) && k < |w.workers| && Busy(w.workers[k]) && Stops(w.q, q, w.workers[k].serial)
    ensures StoppedOk(q) && WorkersOk(q.jobs, w.workers[k := Idle]) && ExecutedOk(q, w.workers[k := Idle], w.executed)
  {
    hide QueueInv, Has;
    var workers := w.workers[k := Idle];
    forall s: nat | Has(q.jobs, Running, s)
      ensures exists l :: 0 <= l < |workers| && Serves(workers[l], s)
    {
      var l :| 0 <= l < |w.workers| && Serves(w.workers[l], s);
      assert Serves(workers[l], s);
    }
  }

  lemma NextInv(w0: World, step: Step)
    requires WorldInv(w0)
    ensures WorldInv(Next(w0, step))
  {
    hide QueueInv, StoppedOk, WorkersOk, ExecutedOk, Evolves, PollStep, BeginStep, FinishStep;
    hide Core.Submit, CollectOnce, Core.InterruptSession, Core.InterruptRun, Core.Abandon, Core.Shutdown, Purge;
    var w := w0.(clock := w0.clock + step.elapsed);
    assert WorldInv(w);
    match step.op
    case Poll(k) => PollInv(w, k);
    case Begin(k) => BeginInv(w, k);
    case Finish(k, result) => FinishWorld(w, k, result);
    case Shutdown =>
      ShutdownInv(w.q, w.clock);
      EvolveWorld(w, Core.Shutdown(w.q, w.clock));
    case _ =>
      QuietInv(w, step.op);
      StoppedKept(w.q, Next(w0, step).q);
      EvolveWorld(w, Next(w0, step).q);
  }

  /** The operations that neither start nor finish a job. */
  lemma QuietInv(w: World, op: Op)
    requires WorldInv(w) && !op.Poll? && !op.Begin? && !op.Finish? && !op.Shutdown?
    ensures var q := Next(w, Step(op, 0)).q;
            QueueInv(q) && Evolves(w.q, q) && q.shuttingDown == w.q.shuttingDown
  {
    hide QueueInv, StoppedOk, WorkersOk, ExecutedOk, Evolves;
    hide Core.Submit, CollectOnce, Core.InterruptSession, Core.InterruptRun, Core.Abandon, Purge;
    match op
    case Submit(r, ids) => SubmitInv(w.q, r, ids, w.clock);
    case Look(id) => CollectOnceInv(w.q, id);
    case InterruptSession(key) => InterruptSessionInv(w.q, key, w.clock);
    case InterruptRun(id) => InterruptRunInv(w.q, id, w.clock);
    case Abandon(id) => AbandonInv(w.q, id, w.clock);
    case GetStatus => PurgeInv(w.q, w.clock);
  }
}
