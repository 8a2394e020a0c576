/**
 What each operation does to the jobs that it finds, job by job, and how long a completed job is kept.
 The operations walk a list and change it on the way; here their result is read off the list they start from.
 */
module RunQueueEffects {
  import opened Common
  import Core = RunQueueCore
  import opened RunQueueCore
  import opened RunQueueInvariant
  import opened RunQueueWorld
  import opened RunQueueTheorems

  function Pointwise(jobs: seq<Job>, f: Job -> Job): (r: seq<Job>)
    ensures |r| == |jobs| && forall k :: 0 <= k < |jobs| ==> r[k] == f(jobs[k])
  {
    seq(|jobs|, k requires 0 <= k < |jobs| => f(jobs[k]))
  }

  /** A job that is cancelled: it is over if it was pending, and is told to stop if it is running. */
  function Stopped(j: Job, now: nat): Job {
    match j.state
    case Pending => j.(state := Completed, result := Cancelled, cancelled := true, completedAt := now)
    case Running => j.(cancelled := true)
    case Completed => j
  }

  /** What a submission does to an older job: a followup nothing, a collect ends what is pending, the others all. */
  function Superseded(r: Request, now: nat): Job -> Job {
    (j: Job) =>
      if j.session != r.session then j
      else match r.action
        case Followup => j
        case Collect => if j.state == Pending then Stopped(j, now) else j
        case Steer => Stopped(j, now)
        case Interrupt => Stopped(j, now)
  }

  // ---- cancelling ---------------------------------------------------------------------------------

  function Hit(who: Option<string>, pending: bool, running: bool, now: nat): Job -> Job {
    (j: Job) =>
      if (who.Some? && j.session != who.value) || (j.state == Pending && !pending) || (j.state == Running && !running)
      then j else Stopped(j, now)
  }

  lemma {:induction false} CancelIs(q: Queue, who: Option<string>, pending: bool, running: bool, now: nat, i: nat)
    requires i <= |q.jobs|
    ensures var r := CancelFrom(q, who, pending, running, now, i);
            && |r.jobs| == |q.jobs|
            && (forall k :: 0 <= k < i ==> r.jobs[k] == q.jobs[k])
            && (forall k :: i <= k < |q.jobs| ==> r.jobs[k] == Hit(who, pending, running, now)(q.jobs[k]))
    decreases |q.jobs| - i
  {
    if i < |q.jobs| {
      if who.Some? && q.jobs[i].session != who.value {
        CancelIs(q, who, pending, running, now, i + 1);
      } else if pending && q.jobs[i].state == Pending {
        CancelIs(CompletePending(q, i, now), who, pending, running, now, i + 1);
      } else if running && q.jobs[i].state == Running {
        CancelIs(CancelToken(q, i), who, pending, running, now, i + 1);
      } else {
        CancelIs(q, who, pending, running, now, i + 1);
      }
    }
  }

  /** Interrupting a session stops all its jobs, interrupting a run one job, and a shutdown every job. */
  lemma InterruptEffects(q: Queue, key: string, id: nat, now: nat)
    ensures Core.InterruptSession(q, key, now).jobs == Pointwise(q.jobs, (j: Job) => if j.session == key then Stopped(j, now) else j)
    ensures !q.shuttingDown ==> Core.Shutdown(q, now).jobs == Pointwise(q.jobs, (j: Job) => Stopped(j, now))
    ensures var (status, r) := Core.InterruptRun(q, id, now);
            && (status == InvalidArgument <==> id == 0)
            && (status == Status.NotFound <==> id != 0 && forall k :: 0 <= k < |q.jobs| ==> q.jobs[k].id != id)
            && (status == Ok <==> id != 0 && exists k :: 0 <= k < |q.jobs| && q.jobs[k].id == id)
            && (status != Ok ==> r == q)
            && (status == Ok ==> exists k :: 0 <= k < |q.jobs| && q.jobs[k].id == id && r.jobs == q.jobs[k := Stopped(q.jobs[k], now)])
  {
    hide CancelFrom, Stopped;
    var s := FindSession(q.sessions, key, 0);
    var q1 := if s == |q.sessions| then q
              else q.(sessions := q.sessions[s := q.sessions[s].(generation := q.sessions[s].generation + 1)]);
    CancelIs(q1, Some(key), true, true, now, 0);
    CancelIs(q.(shuttingDown := true), None, true, true, now, 0);
    var k := FindJob(q.jobs, id, 0);
    if k < |q.jobs| { CancelOneIs(q, k, now); }
  }

  lemma CancelOneIs(q: Queue, k: nat, now: nat)
    requires k < |q.jobs|
    ensures CancelOne(q, k, now).jobs == q.jobs[k := Stopped(q.jobs[k], now)]
  {
  }

  function Without(jobs: seq<Job>, k: nat): seq<Job>
    requires k < |jobs|
  {
    if jobs[k].state == Running then jobs[k := jobs[k].(abandoned := true, cancelled := true)]
    else jobs[..k] + jobs[k + 1..]
  }

  /**
   Giving up on a run: a running job is stopped and marked, so that its worker removes it; any other job is
   removed at once.
   */
  lemma AbandonEffect(q: Queue, id: nat, now: nat)
    ensures var (status, r) := Core.Abandon(q, id, now);
            && (status == Ok <==> id != 0 && exists k :: 0 <= k < |q.jobs| && q.jobs[k].id == id)
            && (status != Ok ==> r == q)
            && (status == Ok ==> exists k: nat :: k < |q.jobs| && q.jobs[k].id == id && r.jobs == Without(q.jobs, k))
  {
    var k := FindJob(q.jobs, id, 0);
    if id != 0 && k < |q.jobs| {
      var r := Core.Abandon(q, id, now).1;
      assert r.jobs == Without(q.jobs, k);
    }
  }

  // ---- purging ------------------------------------------------------------------------------------

  /** The jobs that are not yet over, or have been over for less than the time to live, in their order. */
  function Kept(jobs: seq<Job>, ttl: nat, now: nat): seq<Job> {
    if jobs == [] then []
    else (if jobs[0].state == Completed && jobs[0].completedAt + ttl <= now then [] else [jobs[0]]) + Kept(jobs[1..], ttl, now)
  }

  lemma {:induction false} PurgeFromIs(q: Queue, now: nat, i: nat)
    requires i <= |q.jobs|
    ensures PurgeFrom(q, now, i).jobs == q.jobs[..i] + Kept(q.jobs[i..], q.config.ttl, now)
    ensures PurgeFrom(q, now, i).config == q.config && PurgeFrom(q, now, i).shuttingDown == q.shuttingDown
    decreases |q.jobs| - i
  {
    if i == |q.jobs| {
      assert q.jobs[..i] + [] == q.jobs && q.jobs[i..] == [];
    } else {
      assert q.jobs[i..][0] == q.jobs[i] && q.jobs[i..][1..] == q.jobs[i + 1..];
      if Expired(q, i, now) {
        var r := Remove(q, i);
        assert r.jobs[..i] == q.jobs[..i] && r.jobs[i..] == q.jobs[i + 1..];
        assert [] + Kept(r.jobs[i..], q.config.ttl, now) == Kept(r.jobs[i..], q.config.ttl, now);
        PurgeFromIs(r, now, i);
      } else {
        PurgeFromIs(q, now, i + 1);
        assert q.jobs[..i + 1] == q.jobs[..i] + [q.jobs[i]];
      }
    }
  }

  lemma {:induction false} KeptHas(jobs: seq<Job>, ttl: nat, now: nat, j: Job)
    ensures j in Kept(jobs, ttl, now) <==> j in jobs && !(j.state == Completed && j.completedAt + ttl <= now)
  {
    if jobs != [] {
      KeptHas(jobs[1..], ttl, now, j);
      assert j in jobs <==> j == jobs[0] || j in jobs[1..];
    }
  }

  /** A purge drops the jobs that have been over for the time to live, if there is one, and keeps the order. */
  lemma PurgeEffect(q: Queue, now: nat)
    ensures Purge(q, now).jobs == if q.config.ttl == 0 then q.jobs else Kept(q.jobs, q.config.ttl, now)
    ensures Purge(q, now).config == q.config && Purge(q, now).shuttingDown == q.shuttingDown
  {
    PurgeFromIs(q, now, 0);
    assert q.jobs[..0] == [] && q.jobs[0..] == q.jobs && [] + Kept(q.jobs, q.config.ttl, now) == Kept(q.jobs, q.config.ttl, now);
  }

  // ---- submitting ---------------------------------------------------------------------------------

  /** The candidate is the first that no job has, among the first one and eight retries. */
  predicate Chosen(jobs: seq<Job>, ids: seq<nat>, k: nat) {
    && k < |ids| && k <= 8
    && (forall i :: 0 <= i < |jobs| ==> jobs[i].id != ids[k])
    && (forall n :: 0 <= n < k ==> exists i :: 0 <= i < |jobs| && jobs[i].id == ids[n])
  }

  lemma {:induction false} ChooseIs(jobs: seq<Job>, ids: seq<nat>, k: nat)
    requires k <= |ids|
    requires forall n :: 0 <= n < k ==> exists i :: 0 <= i < |jobs| && jobs[i].id == ids[n]
    ensures var id := ChooseId(jobs, ids, k);
            && (id.Some? ==> exists n: nat :: Chosen(jobs, ids, n) && id.value == ids[n])
            && (id == None ==> forall n: nat :: !Chosen(jobs, ids, n))
    decreases |ids| - k
  {
    if k < |ids| && k <= ID_RETRIES {
      var i := FindJob(jobs, ids[k], 0);
      if i == |jobs| {
        assert Chosen(jobs, ids, k);
      } else {
        assert jobs[i].id == ids[k];
        ChooseIs(jobs, ids, k + 1);
      }
    } else {
      forall n: nat
        ensures !Chosen(jobs, ids, n)
      {
        if n < k {
          var i :| 0 <= i < |jobs| && jobs[i].id == ids[n];
        }
      }
    }
  }

  /** When a submission is refused, and with which status. */
  lemma SubmitStatus(q: Queue, r: Request, ids: seq<nat>, now: nat)
    requires QueueInv(q)
    ensures var (status, id, q') := Core.Submit(q, r, ids, now);
            var jobs := if q.config.ttl == 0 then q.jobs else Kept(q.jobs, q.config.ttl, now);
            var full := (q.config.maxTotal > 0 && |jobs| >= q.config.maxTotal)
                        || ((r.action == Followup || r.action == Interrupt) && q.config.maxPending > 0
                            && Count(jobs, PendingOf(r.session)) >= q.config.maxPending);
            && (status == InvalidArgument <==> r.lane >= 4)
            && (status == Cancelled <==> r.lane < 4 && q.shuttingDown)
            && (status == QueueFull <==> r.lane < 4 && !q.shuttingDown && full)
            && (status == Ok <==> r.lane < 4 && !q.shuttingDown && !full && exists k: nat :: Chosen(jobs, ids, k))
            && (status in {Ok, InvalidArgument, Cancelled, QueueFull, Platform})
            && (status == Ok ==> exists k: nat :: Chosen(jobs, ids, k) && id == ids[k])
            && (status in {InvalidArgument, Cancelled} ==> q' == q)
            && (status in {QueueFull, Platform} ==> q'.jobs == jobs)
            && (status == Ok ==> q'.jobs == Pointwise(jobs, Superseded(r, now)) + [NewJob(q, r, id)])
  {
    hide QueueInv, CountersOk, Purge, CancelFrom, Count, Chosen, ChooseId, Kept, Evolves, Stopped;
    var p := Purge(q, now);
    PurgeInv(q, now);
    PurgeEffect(q, now);
    TotalIsLength(p);
    ChooseIs(p.jobs, ids, 0);
    SupersededIs(p, r, now);
  }

  function NewJob(q: Queue, r: Request, id: nat): Job {
    Job(id, r.session, r.lane, r.action, Pending, false, Ok, 0, false, q.counters.submitted)
  }

  lemma SupersededIs(p: Queue, r: Request, now: nat)
    ensures ApplyAction(p, r, now).jobs == Pointwise(p.jobs, Superseded(r, now))
    ensures ApplyAction(p, r, now).counters.submitted == p.counters.submitted
  {
    hide CancelFrom;
    CancelIs(p, Some(r.session), r.action != Followup, r.action == Steer || r.action == Interrupt, now, 0);
    CancelSubmitted(p, Some(r.session), r.action != Followup, r.action == Steer || r.action == Interrupt, now, 0);
  }

  lemma {:induction false} CancelSubmitted(q: Queue, who: Option<string>, pending: bool, running: bool, now: nat, i: nat)
    requires i <= |q.jobs|
    ensures CancelFrom(q, who, pending, running, now, i).counters.submitted == q.counters.submitted
    decreases |q.jobs| - i
  {
    if i < |q.jobs| {
      CancelSubmitted(q, who, pending, running, now, i + 1);
      CancelSubmitted(CompletePending(q, i, now), who, pending, running, now, i + 1);
      CancelSubmitted(CancelToken(q, i), who, pending, running, now, i + 1);
    }
  }

  // ---- how long a completed job is kept -------------------------------------------------------------

  /** Completed jobs stay as they are; the time of completion is the time of the step. */
  ghost predicate Keeps(q: Queue, q': Queue, now: nat) {
    && (forall j :: j in q.jobs && j.state == Completed ==> j in q'.jobs)
    && (forall j :: j in q'.jobs && j.state == Completed ==> j in q.jobs || j.completedAt == now)
  }

  predicate Changed(j: Job, j': Job, now: nat) {
    j' == j || j' == Stopped(j, now) || (j.state == Pending && j' == j.(state := Running))
  }

  lemma PointwiseKeeps(q: Queue, q': Queue, now: nat)
    requires |q'.jobs| == |q.jobs|
    requires forall k :: 0 <= k < |q.jobs| ==> Changed(q.jobs[k], q'.jobs[k], now)
    ensures Keeps(q, q', now)
  {
    forall j | j in q.jobs && j.state == Completed
      ensures j in q'.jobs
    {
      var k :| 0 <= k < |q.jobs| && q.jobs[k] == j;
      assert q'.jobs[k] == j;
    }
  }

  lemma {:induction false} ScanKeeps(q: Queue, now: nat, i: nat)
    requires i <= |q.jobs|
    ensures var r := ScanFrom(q, now, i).1;
            && |r.jobs| == |q.jobs|
            && forall k :: 0 <= k < |q.jobs| ==> Changed(q.jobs[k], r.jobs[k], now)
    decreases |q.jobs| - i
  {
    hide FindSession;
    if i < |q.jobs| {
      var t := Track(q, q.jobs[i].session);
      if q.jobs[i].state != Pending {
        ScanKeeps(q, now, i + 1);
      } else if q.jobs[i].lane >= |q.lanes| {
        ScanKeepsOn(q, q, now, i);
      } else if FindSession(t.sessions, t.jobs[i].session, 0) == |t.sessions| {
        ScanKeepsOn(q, t, now, i);
      } else if !CanRun(t, FindSession(t.sessions, t.jobs[i].session, 0), t.jobs[i].lane) {
        ScanKeeps(t, now, i + 1);
      }
    }
  }

  lemma {:induction false} ScanKeepsOn(q: Queue, t: Queue, now: nat, i: nat)
    requires i < |q.jobs| && t.jobs == q.jobs && q.jobs[i].state == Pending
    ensures var r := ScanFrom(CompletePending(t, i, now), now, i + 1).1;
            && |r.jobs| == |q.jobs|
            && forall k :: 0 <= k < |q.jobs| ==> Changed(q.jobs[k], r.jobs[k], now)
    decreases |q.jobs| - i, 0
  {
    ScanBehind(CompletePending(t, i, now), now, i + 1);
    ScanKeeps(CompletePending(t, i, now), now, i + 1);
  }

  lemma {:induction false} ScanBehind(q: Queue, now: nat, i: nat)
    requires i <= |q.jobs|
    ensures forall k :: 0 <= k < i ==> ScanFrom(q, now, i).1.jobs[k] == q.jobs[k]
    decreases |q.jobs| - i
  {
    hide FindSession;
    if i < |q.jobs| {
      var t := Track(q, q.jobs[i].session);
      ScanBehind(q, now, i + 1);
      ScanBehind(CompletePending(q, i, now), now, i + 1);
      ScanBehind(CompletePending(t, i, now), now, i + 1);
      ScanBehind(t, now, i + 1);
    }
  }

  lemma CancelKeeps(q: Queue, who: Option<string>, pending: bool, running: bool, now: nat)
    ensures Keeps(q, CancelFrom(q, who, pending, running, now, 0), now)
  {
    hide CancelFrom;
    CancelIs(q, who, pending, running, now, 0);
    PointwiseKeeps(q, CancelFrom(q, who, pending, running, now, 0), now);
  }

  lemma FinishKeeps(q: Queue, i: nat, result: Status, now: nat)
    requires QueueInv(q) && i < |q.jobs| && q.jobs[i].state == Running
    ensures Keeps(q, Core.Finish(q, i, result, now), now)
  {
    hide CountersOk, LanesOk, SessionsOk, BackpressureOk, SteerOk, DroppedOk, LeaveSession;
    var f := FinishRunning(q, i, result, now);
    var k := FindJob(f.jobs, f.jobs[i].id, 0);
    assert k == i by { assert f.jobs[k].id == f.jobs[i].id && q.jobs[k].id == f.jobs[k].id; }
    var r := Core.Finish(q, i, result, now);
    forall j | j in q.jobs && j.state == Completed
      ensures j in r.jobs
    {
      var l :| 0 <= l < |q.jobs| && q.jobs[l] == j;
      assert f.jobs[l] == j;
      if q.jobs[i].abandoned { assert r.jobs[if l < i then l else l - 1] == j; }
    }
    forall j | j in r.jobs && j.state == Completed
      ensures j in q.jobs || j.completedAt == now
    {
      var l :| 0 <= l < |r.jobs| && r.jobs[l] == j;
      assert j in f.jobs;
    }
  }

  lemma RemoveOthers(q: Queue, i: nat, now: nat)
    requires i < |q.jobs|
    ensures forall j :: j in q.jobs && j != q.jobs[i] ==> j in Remove(q, i).jobs
    ensures forall j :: j in Remove(q, i).jobs ==> j in q.jobs
  {
    var rest := Remove(q, i).jobs;
    forall j | j in q.jobs && j != q.jobs[i]
      ensures j in rest
    {
      var l :| 0 <= l < |q.jobs| && q.jobs[l] == j;
      assert rest[if l < i then l else l - 1] == j;
    }
  }

  /** All but the job with the id keep. */
  ghost predicate KeepsBut(q: Queue, q': Queue, id: nat, now: nat) {
    && (forall j :: j in q.jobs && j.state == Completed && j.id != id ==> j in q'.jobs)
    && (forall j :: j in q'.jobs && j.state == Completed ==> j in q.jobs || j.completedAt == now)
  }

  lemma AbandonKeeps(q: Queue, id: nat, now: nat)
    ensures KeepsBut(q, Core.Abandon(q, id, now).1, id, now)
  {
    hide FindJob, Stopped;
    AbandonEffect(q, id, now);
    var (status, r) := Core.Abandon(q, id, now);
    if status == Ok {
      var k: nat :| k < |q.jobs| && q.jobs[k].id == id && r.jobs == Without(q.jobs, k);
      if q.jobs[k].state != Running {
        RemoveOthers(q, k, now);
        assert Remove(q, k).jobs == r.jobs;
      } else {
        forall j | j in q.jobs && j.state == Completed
          ensures j in r.jobs
        {
          var l :| 0 <= l < |q.jobs| && q.jobs[l] == j;
          assert r.jobs[l] == j;
        }
      }
    }
  }

  lemma LookKeeps(q: Queue, id: nat, now: nat)
    ensures KeepsBut(q, CollectOnce(q, id).1, id, now)
  {
    hide Remove;
    var i := FindJob(q.jobs, id, 0);
    if i < |q.jobs| { RemoveOthers(q, i, now); }
  }

  lemma InterruptKeeps(q: Queue, key: string, id: nat, now: nat)
    ensures Keeps(q, Core.InterruptSession(q, key, now), now)
    ensures Keeps(q, Core.InterruptRun(q, id, now).1, now)
    ensures Keeps(q, Core.Shutdown(q, now), now)
  {
    hide CancelFrom, Stopped, CancelOne, Keeps;
    InterruptEffects(q, key, id, now);
    PointwiseKeeps(q, Core.InterruptSession(q, key, now), now);
    if q.shuttingDown { PointwiseKeeps(q, q, now); } else { PointwiseKeeps(q, Core.Shutdown(q, now), now); }
    PointwiseKeeps(q, q, now);
    if Core.InterruptRun(q, id, now).0 == Ok { PointwiseKeeps(q, Core.InterruptRun(q, id, now).1, now); }
  }

  /** All but the expired jobs keep. */
  ghost predicate KeepsFresh(q: Queue, q': Queue, now: nat) {
    && (forall j :: j in q.jobs && j.state == Completed ==>
          j in q'.jobs || (q.config.ttl > 0 && j.completedAt + q.config.ttl <= now))
    && (forall j :: j in q'.jobs && j.state == Completed ==> j in q.jobs || j.completedAt == now)
  }

  lemma PurgeKeeps(q: Queue, now: nat)
    ensures KeepsFresh(q, Purge(q, now), now)
    ensures forall j :: j in Purge(q, now).jobs ==> j in q.jobs
    ensures q.config.ttl > 0 ==> forall j :: j in Purge(q, now).jobs && j.state == Completed ==> j.completedAt + q.config.ttl > now
  {
    hide Kept, Purge;
    PurgeEffect(q, now);
    forall j
      ensures j in Kept(q.jobs, q.config.ttl, now) <==> j in q.jobs && !(j.state == Completed && j.completedAt + q.config.ttl <= now)
    {
      KeptHas(q.jobs, q.config.ttl, now, j);
    }
  }

  lemma SubmitKeeps(q: Queue, r: Request, ids: seq<nat>, now: nat)
    requires QueueInv(q)
    ensures KeepsFresh(q, Core.Submit(q, r, ids, now).2, now)
  {
    hide QueueInv, Purge, CancelFrom, Count, Chosen, ChooseId, Kept, Stopped;
    SubmitStatus(q, r, ids, now);
    PurgeEffect(q, now);
    PurgeKeeps(q, now);
    var p := Purge(q, now);
    var (status, id, q') := Core.Submit(q, r, ids, now);
    if status == Ok {
      var middle := p.(jobs := Pointwise(p.jobs, Superseded(r, now)));
      SupersededChanges(p.jobs, r, now);
      PointwiseKeeps(p, middle, now);
      assert q'.jobs == middle.jobs + [NewJob(q, r, id)];
    }
  }

  lemma SupersededChanges(jobs: seq<Job>, r: Request, now: nat)
    ensures forall k :: 0 <= k < |jobs| ==> Changed(jobs[k], Pointwise(jobs, Superseded(r, now))[k], now)
  {
    hide Stopped;
  }

  /**
   A completed job stays as it is until it is collected or abandoned, or a submission or a status query finds
   that it has been over for the time to live; and it is completed at the time of the step that completes it.
   */
  lemma Retention(w0: World, step: Step, j: Job)
    requires Reachable(w0)
    ensures var q, q', now := w0.q, Next(w0, step).q, w0.clock + step.elapsed;
            && (j in q.jobs && j.state == Completed ==>
                  || j in q'.jobs
                  || (step.op.Look? && step.op.id == j.id) || (step.op.Abandon? && step.op.id == j.id)
                  || ((step.op.Submit? || step.op.GetStatus?) && q.config.ttl > 0 && j.completedAt + q.config.ttl <= now))
            && (j in q'.jobs && j.state == Completed ==> j in q.jobs || j.completedAt == now)
            && (step.op.GetStatus? && q.config.ttl > 0 && j in q'.jobs && j.state == Completed ==>
                  j.completedAt + q.config.ttl > now)
  {
    hide QueueInv, StoppedOk, WorkersOk, ExecutedOk, ScanFrom, Position, Core.Finish, Reachable;
    hide Core.Submit, CollectOnce, Core.InterruptSession, Core.InterruptRun, Core.Abandon, Core.Shutdown, Purge;
    ReachableInv(w0);
    var w := w0.(clock := w0.clock + step.elapsed);
    assert WorldInv(w);
    match step.op
    case Submit(r, ids) => SubmitKeeps(w.q, r, ids, w.clock);
    case Poll(k) =>
      ScanKeeps(w.q, w.clock, 0);
      PointwiseKeeps(w.q, ScanFrom(w.q, w.clock, 0).1, w.clock);
    case Begin(k) =>
    case Finish(k, result) =>
      if k < |w.workers| && w.workers[k].Executing? {
        ServedPosition(w, k);
        FinishKeeps(w.q, Position(w.q.jobs, w.workers[k].serial, 0), if w.workers[k].ran then result else Cancelled, w.clock);
      }
    case Look(id) => LookKeeps(w.q, id, w.clock);
    case InterruptSession(key) => InterruptKeeps(w.q, key, 0, w.clock);
    case InterruptRun(id) => InterruptKeeps(w.q, "", id, w.clock);
    case Abandon(id) => AbandonKeeps(w.q, id, w.clock);
    case Shutdown => InterruptKeeps(w.q, "", 0, w.clock);
    case GetStatus => PurgeKeeps(w.q, w.clock);
  }

  /** A task is called only by the worker that was given its job, and only if the job has not been cancelled. */
  lemma CalledUncancelled(w: World, step: Step, s: nat)
    requires Reachable(w) && s in Next(w, step).executed && s !in w.executed
    ensures step.op.Begin? && step.op.worker < |w.workers| && w.workers[step.op.worker] == Claimed(s)
    ensures exists i :: 0 <= i < |w.q.jobs| && w.q.jobs[i].serial == s && w.q.jobs[i].state == Running && !w.q.jobs[i].cancelled
  {
    hide QueueInv, StoppedOk, WorkersOk, ExecutedOk, ScanFrom, Position, Core.Finish, Reachable;
    hide Core.Submit, CollectOnce, Core.InterruptSession, Core.InterruptRun, Core.Abandon, Core.Shutdown, Purge;
    ReachableInv(w);
    if step.op.Begin? && step.op.worker < |w.workers| && w.workers[step.op.worker].Claimed? { ServedPosition(w, step.op.worker); }
  }

  /** The limits as numbers: an entry of the configuration that is not positive, or missing, allows one job. */
  lemma LimitsAre(w: World, lane: nat, key: string)
    requires Reachable(w)
    ensures var c := w.q.config;
            && (lane < LANES && lane < |c.concurrency| && c.concurrency[lane] >= 1 ==>
                  Count(w.q.jobs, RunningIn(lane)) <= c.concurrency[lane] == LaneLimit(c, lane))
            && (lane < LANES && (lane >= |c.concurrency| || c.concurrency[lane] < 1) ==>
                  Count(w.q.jobs, RunningIn(lane)) <= 1 == LaneLimit(c, lane))
            && Count(w.q.jobs, RunningOf(key)) <= Limit(c.perSession) == (if c.perSession >= 1 then c.perSession else 1)
  {
    hide Reachable;
    LimitsHold(w, lane, key);
  }

  // ---- abandoned jobs -------------------------------------------------------------------------------

  /** Only running jobs carry the mark of a collector that has given up. */
  ghost predicate MarkedOk(jobs: seq<Job>) {
    forall j :: j in jobs && j.abandoned ==> j.state == Running
  }

  lemma MarkedPointwise(jobs: seq<Job>, jobs': seq<Job>, now: nat)
    requires MarkedOk(jobs) && |jobs'| == |jobs| && forall k :: 0 <= k < |jobs| ==> Changed(jobs[k], jobs'[k], now)
    ensures MarkedOk(jobs')
  {
    forall j | j in jobs' && j.abandoned
      ensures j.state == Running
    {
      var k :| 0 <= k < |jobs'| && jobs'[k] == j;
      assert jobs[k] in jobs;
    }
  }

  lemma FinishMarked(q: Queue, i: nat, result: Status, now: nat)
    requires QueueInv(q) && MarkedOk(q.jobs) && i < |q.jobs| && q.jobs[i].state == Running
    ensures MarkedOk(Core.Finish(q, i, result, now).jobs)
  {
    hide CountersOk, LanesOk, SessionsOk, BackpressureOk, SteerOk, DroppedOk, LeaveSession;
    var f := FinishRunning(q, i, result, now);
    var k := FindJob(f.jobs, f.jobs[i].id, 0);
    assert k == i by { assert f.jobs[k].id == f.jobs[i].id && q.jobs[k].id == f.jobs[k].id; }
    var r := Core.Finish(q, i, result, now);
    forall j | j in r.jobs && j.abandoned
      ensures j.state == Running
    {
      var l :| 0 <= l < |r.jobs| && r.jobs[l] == j;
      var m := if |r.jobs| == |q.jobs| || l < i then l else l + 1;
      assert m != i && f.jobs[m] == j && q.jobs[m] in q.jobs;
    }
  }

  lemma MarkedFewer(jobs: seq<Job>, jobs': seq<Job>)
    requires MarkedOk(jobs) && forall j :: j in jobs' ==> j in jobs
    ensures MarkedOk(jobs')
  {
  }

  lemma AbandonMarked(q: Queue, id: nat, now: nat)
    requires MarkedOk(q.jobs)
    ensures MarkedOk(Core.Abandon(q, id, now).1.jobs)
  {
    hide FindJob;
    AbandonEffect(q, id, now);
    if Core.Abandon(q, id, now).0 == Ok {
      var k: nat :| k < |q.jobs| && q.jobs[k].id == id && Core.Abandon(q, id, now).1.jobs == Without(q.jobs, k);
    }
  }

  lemma SubmitMarked(q: Queue, r: Request, ids: seq<nat>, now: nat)
    requires QueueInv(q) && MarkedOk(q.jobs)
    ensures MarkedOk(Core.Submit(q, r, ids, now).2.jobs)
  {
    hide QueueInv, Purge, CancelFrom, Count, Chosen, ChooseId, Kept, Stopped;
    SubmitStatus(q, r, ids, now);
    PurgeEffect(q, now);
    PurgeKeeps(q, now);
    var p := Purge(q, now);
    MarkedFewer(q.jobs, p.jobs);
    SupersededChanges(p.jobs, r, now);
    MarkedPointwise(p.jobs, Pointwise(p.jobs, Superseded(r, now)), now);
  }

  lemma InterruptMarked(q: Queue, key: string, id: nat, now: nat)
    requires MarkedOk(q.jobs)
    ensures MarkedOk(Core.InterruptSession(q, key, now).jobs)
    ensures MarkedOk(Core.InterruptRun(q, id, now).1.jobs)
    ensures MarkedOk(Core.Shutdown(q, now).jobs)
  {
    hide CancelFrom, Stopped, CancelOne, MarkedOk;
    InterruptEffects(q, key, id, now);
    MarkedPointwise(q.jobs, Core.InterruptSession(q, key, now).jobs, now);
    if !q.shuttingDown { MarkedPointwise(q.jobs, Core.Shutdown(q, now).jobs, now); }
    if Core.InterruptRun(q, id, now).0 == Ok { MarkedPointwise(q.jobs, Core.InterruptRun(q, id, now).1.jobs, now); }
  }

  lemma MarkedNext(w0: World, step: Step)
    requires WorldInv(w0) && MarkedOk(w0.q.jobs)
    ensures MarkedOk(Next(w0, step).q.jobs)
  {
    hide QueueInv, StoppedOk, WorkersOk, ExecutedOk, ScanFrom, Position, Core.Finish, MarkedOk;
    hide Core.Submit, CollectOnce, Core.InterruptSession, Core.InterruptRun, Core.Abandon, Core.Shutdown, Purge;
    var w := w0.(clock := w0.clock + step.elapsed);
    assert WorldInv(w);
    match step.op
    case Submit(r, ids) => SubmitMarked(w.q, r, ids, w.clock);
    case Poll(k) =>
      ScanKeeps(w.q, w.clock, 0);
      MarkedPointwise(w.q.jobs, ScanFrom(w.q, w.clock, 0).1.jobs, w.clock);
    case Begin(k) =>
    case Finish(k, result) =>
      if k < |w.workers| && w.workers[k].Executing? {
        ServedPosition(w, k);
        FinishMarked(w.q, Position(w.q.jobs, w.workers[k].serial, 0), if w.workers[k].ran then result else Cancelled, w.clock);
      }
    case Look(id) => LookMarked(w.q, id);
    case InterruptSession(key) => InterruptMarked(w.q, key, 0, w.clock);
    case InterruptRun(id) => InterruptMarked(w.q, "", id, w.clock);
    case Abandon(id) => AbandonMarked(w.q, id, w.clock);
    case Shutdown => InterruptMarked(w.q, "", 0, w.clock);
    case GetStatus => PurgeKeeps(w.q, w.clock); MarkedFewer(w.q.jobs, Purge(w.q, w.clock).jobs);
  }

  lemma LookMarked(q: Queue, id: nat)
    requires MarkedOk(q.jobs)
    ensures MarkedOk(CollectOnce(q, id).1.jobs)
  {
    hide FindJob;
  }

  lemma {:induction false} RunMarked(config: Config, workers: nat, steps: seq<Step>)
    ensures MarkedOk(Run(config, workers, steps).q.jobs)
  {
    hide Next, WorldInv;
    if steps != [] {
      var init := steps[..|steps| - 1];
      RunMarked(config, workers, init);
      RunInv(config, workers, init);
      MarkedNext(Run(config, workers, init), steps[|steps| - 1]);
    }
  }

  /** An abandoned run leaves nothing behind: no job is both over and abandoned, in any reachable state. */
  lemma AbandonedGone(w: World, j: Job)
    requires Reachable(w) && j in w.q.jobs && j.abandoned
    ensures j.state == Running
  {
    hide Run;
    var config, workers, steps :| w == Run(config, workers, steps);
    RunMarked(config, workers, steps);
  }
}
