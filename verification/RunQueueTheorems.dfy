/** The guarantees of the run queue over every run. */
module RunQueueTheorems {
  import opened Common
  import Core = RunQueueCore
  import opened RunQueueCore
  import opened RunQueueInvariant
  import Threads = RunQueueWorld
  import opened RunQueueWorld

  ghost function Run(config: Config, workers: nat, steps: seq<Step>): World {
    if steps == [] then Threads.Init(config, workers)
    else Next(Run(config, workers, steps[..|steps| - 1]), steps[|steps| - 1])
  }

  ghost predicate Reachable(w: World) {
    exists config: Config, workers: nat, steps: seq<Step> :: w == Run(config, workers, steps)
  }

  lemma {:induction false} RunInv(config: Config, workers: nat, steps: seq<Step>)
    ensures WorldInv(Run(config, workers, steps))
  {
    if steps == [] {
      Threads.InitInv(config, workers);
    } else {
      RunInv(config, workers, steps[..|steps| - 1]);
      NextInv(Run(config, workers, steps[..|steps| - 1]), steps[|steps| - 1]);
    }
  }

  lemma ReachableInv(w: World)
    requires Reachable(w)
    ensures WorldInv(w)
  {
    var config, workers, steps :| w == Run(config, workers, steps);
    RunInv(config, workers, steps);
  }

  lemma ReachableNext(w: World, step: Step)
    requires Reachable(w)
    ensures Reachable(Next(w, step))
  {
    hide Next;
    var config: Config, workers: nat, steps: seq<Step> :| w == Run(config, workers, steps);
    var more := steps + [step];
    assert more[..|more| - 1] == steps;
    assert Run(config, workers, more) == Next(w, step);
  }

  // ---- accounting and bounds -------------------------------------------------------------------

  /** Every redundant counter is a recount of the job list, and no submission is lost or counted twice. */
  lemma Accounting(w: World)
    requires Reachable(w)
    ensures var q, c := w.q, w.q.counters;
            && c.pending == Count(q.jobs, In(Pending))
            && c.inFlight == Count(q.jobs, In(Running))
            && c.completed == Count(q.jobs, In(Completed))
            && c.total == |q.jobs|
            && c.submitted == c.finished + c.pending + c.inFlight
            && c.cancelled <= c.finished
            && |q.lanes| == LANES
            && (forall l: nat :: l < LANES ==> q.lanes[l] == Count(q.jobs, RunningIn(l)))
            && (forall s :: 0 <= s < |q.sessions| ==>
                  q.sessions[s].inFlight == Count(q.jobs, RunningOf(q.sessions[s].key)))
  {
    hide Count, WorkersOk, ExecutedOk;
    ReachableInv(w);
  }

  lemma RunningTracked(jobs: seq<Job>, sessions: seq<Session>, config: Config, key: string)
    requires SessionsOk(jobs, sessions, config)
    ensures Count(jobs, RunningOf(key)) <= Limit(config.perSession)
  {
    if s :| 0 <= s < |sessions| && sessions[s].key == key {
    } else {
      CountZero(jobs, RunningOf(key));
    }
  }

  /** The configured limits hold at every moment. */
  lemma LimitsHold(w: World, lane: nat, key: string)
    requires Reachable(w)
    ensures lane < LANES ==> Count(w.q.jobs, RunningIn(lane)) <= LaneLimit(w.q.config, lane)
    ensures Count(w.q.jobs, RunningOf(key)) <= Limit(w.q.config.perSession)
    ensures w.q.config.maxPending > 0 ==> Count(w.q.jobs, PendingOf(key)) <= w.q.config.maxPending
    ensures w.q.config.maxTotal > 0 ==> |w.q.jobs| <= w.q.config.maxTotal
  {
    hide Count, WorkersOk, ExecutedOk;
    ReachableInv(w);
    RunningTracked(w.q.jobs, w.q.sessions, w.q.config, key);
  }

  // ---- scheduling ------------------------------------------------------------------------------

  /** The session is tracked, and it or the lane is at its limit. */
  ghost predicate Blocked(q: Queue, key: string, lane: nat) {
    && lane < |q.lanes|
    && var s := FindSession(q.sessions, key, 0);
       s < |q.sessions|
       && (q.sessions[s].inFlight >= Limit(q.config.perSession) || q.lanes[lane] >= LaneLimit(q.config, lane))
  }

  /** The session is not tracked and cannot be, or the lane does not exist. */
  ghost predicate Hopeless(q: Queue, key: string, lane: nat) {
    lane >= |q.lanes| || (FindSession(q.sessions, key, 0) == |q.sessions| && |q.sessions| >= MAX_SESSIONS)
  }

  /** How a scan leaves a job that was pending when it passed it. */
  ghost predicate Passed(q: Queue, j: Job) {
    (j.state == Pending && Blocked(q, j.session, j.lane)) || (j.state == Completed && Hopeless(q, j.session, j.lane))
  }

  lemma {:induction false} FindStable(sessions: seq<Session>, x: Session, key: string, i: nat)
    requires i <= |sessions|
    ensures FindSession(sessions, key, i) < |sessions| ==>
              FindSession(sessions + [x], key, i) == FindSession(sessions, key, i)
    decreases |sessions| - i
  {
    if i < |sessions| { FindStable(sessions, x, key, i + 1); }
  }

  lemma TrackStable(q: Queue, other: string, key: string, lane: nat)
    ensures Blocked(q, key, lane) ==> Blocked(Track(q, other), key, lane)
    ensures Hopeless(q, key, lane) ==> Hopeless(Track(q, other), key, lane)
  {
    FindStable(q.sessions, Session(other, 0, 0), key, 0);
  }

  lemma CompleteStable(q: Queue, i: nat, now: nat, key: string, lane: nat)
    requires i < |q.jobs|
    ensures Blocked(q, key, lane) ==> Blocked(CompletePending(q, i, now), key, lane)
    ensures Hopeless(q, key, lane) ==> Hopeless(CompletePending(q, i, now), key, lane)
  {
  }

  lemma TrackResult(q: Queue, key: string)
    ensures var t := Track(q, key);
            t == q.(sessions := t.sessions)
            && (FindSession(t.sessions, key, 0) == |t.sessions| ==> t == q && |q.sessions| >= MAX_SESSIONS)
  {
    if |q.sessions| < MAX_SESSIONS {
      var more := q.sessions + [Session(key, 0, 0)];
      assert more[|q.sessions|].key == key;
    }
  }

  /** Passed jobs stay as they are when the scan moves on to q'. */
  lemma PassedOn(q: Queue, q': Queue, jobs: seq<Job>, i: nat)
    requires i <= |jobs| == |q.jobs| == |q'.jobs|
    requires forall j :: 0 <= j < i && jobs[j].state == Pending ==> Passed(q, q.jobs[j])
    requires forall j :: 0 <= j < i ==> q'.jobs[j] == q.jobs[j]
    requires forall key, lane: nat :: Blocked(q, key, lane) ==> Blocked(q', key, lane)
    requires forall key, lane: nat :: Hopeless(q, key, lane) ==> Hopeless(q', key, lane)
    ensures forall j :: 0 <= j < i && jobs[j].state == Pending ==> Passed(q', q'.jobs[j])
  {
    hide Blocked, Hopeless;
  }

  /** jobs is the list when the scan began. */
  ghost predicate ScanOk(q: Queue, jobs: seq<Job>, i: nat) {
    && i <= |jobs| == |q.jobs|
    && (forall j :: 0 <= j < i && jobs[j].state == Pending ==> Passed(q, q.jobs[j]))
    && (forall j :: 0 <= j < i && jobs[j].state != Pending ==> q.jobs[j] == jobs[j])
    && (forall j :: 0 <= j < i ==> Later(jobs[j], q.jobs[j]))
    && (forall j :: i <= j < |jobs| ==> q.jobs[j] == jobs[j])
  }

  lemma ScanOkTrack(q: Queue, jobs: seq<Job>, i: nat, key: string)
    requires ScanOk(q, jobs, i)
    ensures ScanOk(Track(q, key), jobs, i)
  {
    hide Blocked, Hopeless, Track, Later;
    TrackResult(q, key);
    forall k, lane: nat
      ensures Blocked(q, k, lane) ==> Blocked(Track(q, key), k, lane)
      ensures Hopeless(q, k, lane) ==> Hopeless(Track(q, key), k, lane)
    {
      TrackStable(q, key, k, lane);
    }
    PassedOn(q, Track(q, key), jobs, i);
  }

  lemma ScanOkComplete(q: Queue, jobs: seq<Job>, i: nat, now: nat)
    requires ScanOk(q, jobs, i) && i < |jobs| && jobs[i].state == Pending
    requires Hopeless(q, jobs[i].session, jobs[i].lane)
    ensures ScanOk(CompletePending(q, i, now), jobs, i + 1)
  {
    hide Blocked, Hopeless;
    var c := CompletePending(q, i, now);
    forall k, lane: nat
      ensures Blocked(q, k, lane) ==> Blocked(c, k, lane)
      ensures Hopeless(q, k, lane) ==> Hopeless(c, k, lane)
    {
      CompleteStable(q, i, now, k, lane);
    }
    PassedOn(q, c, jobs, i);
  }

  lemma ScanOkBlocked(q: Queue, jobs: seq<Job>, i: nat)
    requires ScanOk(q, jobs, i) && i < |jobs|
    requires jobs[i].state == Pending ==> Blocked(q, jobs[i].session, jobs[i].lane)
    ensures ScanOk(q, jobs, i + 1)
  {
    hide Blocked, Hopeless;
  }

  lemma {:induction false} ScanPasses(q: Queue, jobs: seq<Job>, now: nat, i: nat)
    requires ScanOk(q, jobs, i)
    ensures var (k, r) := ScanFrom(q, now, i);
            && (k.None? ==> ScanOk(r, jobs, |jobs|))
            && (k.Some? ==> i <= k.value < |jobs| && jobs[k.value].state == Pending
                            && exists t, s: nat :: ScanOk(t, jobs, k.value) && StartsAt(t, r, k.value, s))
    decreases |jobs| - i
  {
    hide CompletePending, Track, Later, Passed, Start, StartsAt;
    if i < |jobs| {
      if jobs[i].state != Pending {
        ScanOkBlocked(q, jobs, i);
        ScanPasses(q, jobs, now, i + 1);
      } else if jobs[i].lane >= |q.lanes| {
        ScanOkComplete(q, jobs, i, now);
        ScanPasses(CompletePending(q, i, now), jobs, now, i + 1);
      } else {
        var t := Track(q, jobs[i].session);
        TrackResult(q, jobs[i].session);
        ScanOkTrack(q, jobs, i, jobs[i].session);
        var s := FindSession(t.sessions, jobs[i].session, 0);
        if s == |t.sessions| {
          ScanOkComplete(t, jobs, i, now);
          ScanPasses(CompletePending(t, i, now), jobs, now, i + 1);
        } else if CanRun(t, s, jobs[i].lane) {
          assert StartsAt(t, Start(t, i, s), i, s) by { StartsAtIntro(t, i, s); }
        } else {
          ScanOkBlocked(t, jobs, i);
          ScanPasses(t, jobs, now, i + 1);
        }
      }
    }
  }

  /** From t the job at position k, whose session is tracked at s, is started. */
  ghost predicate StartsAt(t: Queue, r: Queue, k: nat, s: nat) {
    && k < |t.jobs| && t.jobs[k].lane < |t.lanes| && s < |t.sessions|
    && s == FindSession(t.sessions, t.jobs[k].session, 0)
    && CanRun(t, s, t.jobs[k].lane)
    && r == Start(t, k, s)
  }

  lemma StartsAtIntro(t: Queue, k: nat, s: nat)
    requires k < |t.jobs| && t.jobs[k].lane < |t.lanes| && s < |t.sessions|
    requires s == FindSession(t.sessions, t.jobs[k].session, 0) && CanRun(t, s, t.jobs[k].lane)
    ensures StartsAt(t, Start(t, k, s), k, s)
  {
  }

  /** A job starts only if no job submitted earlier to the same session and lane was pending. */
  lemma FifoPerSessionAndLane(q: Queue, now: nat, j: nat)
    requires ScanFrom(q, now, 0).0.Some? && j < ScanFrom(q, now, 0).0.value
    ensures var k := ScanFrom(q, now, 0).0.value;
            k < |q.jobs| && q.jobs[k].state == Pending
            && !(q.jobs[j].state == Pending && q.jobs[j].session == q.jobs[k].session && q.jobs[j].lane == q.jobs[k].lane)
  {
    hide ScanFrom, Start;
    ScanPasses(q, q.jobs, now, 0);
    var (k, r) := ScanFrom(q, now, 0);
    var t, s: nat :| ScanOk(t, q.jobs, k.value) && StartsAt(t, r, k.value, s);
    if q.jobs[j].state == Pending { assert Passed(t, t.jobs[j]); }
  }

  /**
   A scan that starts nothing leaves only jobs that a limit blocks: what it has not cancelled is tracked and
   blocked in the state that it leaves behind, and what it has cancelled finds no place in a full table.
   */
  lemma QuietScan(w: World, now: nat, j: nat)
    requires Reachable(w) && ScanFrom(w.q, now, 0).0.None? && j < |w.q.jobs| && w.q.jobs[j].state == Pending
    ensures var r := ScanFrom(w.q, now, 0).1;
            var job := r.jobs[j];
            && job.session == w.q.jobs[j].session && job.lane == w.q.jobs[j].lane
            && (job.state == Pending ==> Blocked(r, job.session, job.lane))
            && (job.state == Completed <==> !Tracked(r.sessions, job.session) && |r.sessions| == MAX_SESSIONS)
            && (job.state == Pending || job.state == Completed)
  {
    hide ScanFrom, WorkersOk, ExecutedOk, CountersOk, BackpressureOk, SteerOk, DroppedOk;
    ReachableInv(w);
    ScanPasses(w.q, w.q.jobs, now, 0);
    var r := ScanFrom(w.q, now, 0).1;
    ScanFromInv(w.q, now, 0);
    assert Passed(r, r.jobs[j]);
    var s := FindSession(r.sessions, r.jobs[j].session, 0);
    if s < |r.sessions| { assert r.sessions[s].key == r.jobs[j].session; }
  }

  // ---- what runs, and how often ----------------------------------------------------------------

  /** No task is called twice, and none that was completed while pending is called at all. */
  lemma RunsAtMostOnce(w: World)
    requires Reachable(w)
    ensures Distinct(w.executed)
    ensures forall s :: s in w.executed ==> s < w.q.counters.submitted && s !in w.q.dropped
    ensures forall k :: 0 <= k < |w.q.jobs| && w.q.jobs[k].state == Pending ==> w.q.jobs[k].serial !in w.executed
  {
    hide QueueInv, StoppedOk, WorkersOk;
    ReachableInv(w);
    forall k | 0 <= k < |w.q.jobs| && w.q.jobs[k].state == Pending
      ensures w.q.jobs[k].serial !in w.executed
    {
      assert Has(w.q.jobs, Pending, w.q.jobs[k].serial);
    }
  }

  /** A job stays in the list, running, for as long as a worker serves it, and only one worker does. */
  lemma RunningStays(w: World, k: nat, l: nat)
    requires Reachable(w) && k < |w.workers| && l < |w.workers| && k != l && Busy(w.workers[k])
    ensures exists i :: 0 <= i < |w.q.jobs| && w.q.jobs[i].state == Running && w.q.jobs[i].serial == w.workers[k].serial
    ensures Busy(w.workers[l]) ==> w.workers[l].serial != w.workers[k].serial
  {
    hide QueueInv, StoppedOk, ExecutedOk;
    ReachableInv(w);
  }

  /** From shutdown on nothing is pending and no job starts. */
  lemma NothingStartsAfterShutdown(w: World, step: Step, i: nat)
    requires Reachable(w) && w.q.shuttingDown
    ensures i < |w.q.jobs| ==> w.q.jobs[i].state != Pending
    ensures Next(w, step).q.shuttingDown
    ensures i < |Next(w, step).q.jobs| && Next(w, step).q.jobs[i].state == Running ==>
              Has(w.q.jobs, Running, Next(w, step).q.jobs[i].serial)
  {
    hide QueueInv, WorkersOk, ExecutedOk;
    ReachableInv(w);
    assert i < |w.q.jobs| && w.q.jobs[i].state == Pending ==> Has(w.q.jobs, Pending, w.q.jobs[i].serial);
    StoppedNext(w, step);
    var q := Next(w, step).q;
    if i < |q.jobs| && q.jobs[i].state == Running { assert Has(q.jobs, Running, q.jobs[i].serial); }
  }

  lemma StoppedNext(w0: World, step: Step)
    requires WorldInv(w0) && w0.q.shuttingDown
    ensures Next(w0, step).q.shuttingDown
    ensures forall s: nat :: Has(Next(w0, step).q.jobs, Running, s) ==> Has(w0.q.jobs, Running, s)
  {
    hide QueueInv, StoppedOk, WorkersOk, ExecutedOk, Has, Position, Core.Finish;
    hide Core.Submit, CollectOnce, Core.InterruptSession, Core.InterruptRun, Core.Abandon, Core.Shutdown, Purge;
    var w := w0.(clock := w0.clock + step.elapsed);
    assert WorldInv(w);
    match step.op
    case Poll(k) =>
    case Begin(k) =>
    case Finish(k, result) =>
      if k < |w.workers| && w.workers[k].Executing? {
        ServedPosition(w, k);
        FinishInv(w.q, Position(w.q.jobs, w.workers[k].serial, 0), if w.workers[k].ran then result else Cancelled, w.clock);
      }
    case Shutdown => ShutdownInv(w.q, w.clock);
    case _ => QuietInv(w, step.op);
  }

  // ---- sessions fed only by superseding submissions --------------------------------------------

  predicate Supersedes(a: Action) {
    a == Steer || a == Interrupt
  }

  ghost predicate Fed(jobs: seq<Job>, key: string) {
    forall k :: 0 <= k < |jobs| && jobs[k].session == key ==> Supersedes(jobs[k].action)
  }

  predicate FeedsOnly(step: Step, key: string) {
    step.op.Submit? && step.op.r.session == key ==> Supersedes(step.op.r.action)
  }

  lemma {:induction false} PurgeFed(q: Queue, now: nat, i: nat, key: string)
    requires Fed(q.jobs, key) && i <= |q.jobs|
    ensures Fed(PurgeFrom(q, now, i).jobs, key)
    decreases |q.jobs| - i
  {
    if i < |q.jobs| {
      if Expired(q, i, now) { PurgeFed(Remove(q, i), now, i, key); } else { PurgeFed(q, now, i + 1, key); }
    }
  }

  lemma {:induction false} CancelFed(q: Queue, who: Option<string>, pending: bool, running: bool, now: nat, i: nat, key: string)
    requires Fed(q.jobs, key) && i <= |q.jobs|
    ensures Fed(CancelFrom(q, who, pending, running, now, i).jobs, key)
    decreases |q.jobs| - i
  {
    if i < |q.jobs| {
      CancelFed(q, who, pending, running, now, i + 1, key);
      CancelFed(CompletePending(q, i, now), who, pending, running, now, i + 1, key);
      CancelFed(CancelToken(q, i), who, pending, running, now, i + 1, key);
    }
  }

  lemma {:induction false} ScanFed(q: Queue, now: nat, i: nat, key: string)
    requires Fed(q.jobs, key) && i <= |q.jobs|
    ensures Fed(ScanFrom(q, now, i).1.jobs, key)
    decreases |q.jobs| - i
  {
    hide FindSession;
    if i < |q.jobs| {
      var t := Track(q, q.jobs[i].session);
      ScanFed(q, now, i + 1, key);
      ScanFed(CompletePending(q, i, now), now, i + 1, key);
      ScanFed(CompletePending(t, i, now), now, i + 1, key);
      ScanFed(t, now, i + 1, key);
    }
  }

  lemma SubmitFed(q: Queue, r: Request, ids: seq<nat>, now: nat, key: string)
    requires Fed(q.jobs, key) && (r.session == key ==> Supersedes(r.action))
    ensures Fed(Core.Submit(q, r, ids, now).2.jobs, key)
  {
    hide PurgeFrom, CancelFrom;
    PurgeFed(q, now, 0, key);
    CancelFed(Purge(q, now), Some(r.session), r.action != Followup, r.action == Steer || r.action == Interrupt, now, 0, key);
  }

  lemma FinishFed(q: Queue, i: nat, result: Status, now: nat, key: string)
    requires Fed(q.jobs, key) && i < |q.jobs|
    ensures Fed(Core.Finish(q, i, result, now).jobs, key)
  {
    hide LeaveSession, FindJob;
    assert Fed(FinishRunning(q, i, result, now).jobs, key);
  }

  lemma AbandonFed(q: Queue, id: nat, now: nat, key: string)
    requires Fed(q.jobs, key)
    ensures Fed(Core.Abandon(q, id, now).1.jobs, key)
  {
    hide FindJob;
  }

  lemma InterruptSessionFed(q: Queue, who: string, now: nat, key: string)
    requires Fed(q.jobs, key)
    ensures Fed(Core.InterruptSession(q, who, now).jobs, key)
  {
    hide FindSession, CancelFrom;
    var s := FindSession(q.sessions, who, 0);
    if s < |q.sessions| {
      CancelFed(q.(sessions := q.sessions[s := q.sessions[s].(generation := q.sessions[s].generation + 1)]),
                Some(who), true, true, now, 0, key);
    } else {
      CancelFed(q, Some(who), true, true, now, 0, key);
    }
  }

  lemma ShutdownFed(q: Queue, now: nat, key: string)
    requires Fed(q.jobs, key)
    ensures Fed(Core.Shutdown(q, now).jobs, key)
  {
    hide CancelFrom;
    CancelFed(q.(shuttingDown := true), None, true, true, now, 0, key);
  }

  lemma PurgeAllFed(q: Queue, now: nat, key: string)
    requires Fed(q.jobs, key)
    ensures Fed(Purge(q, now).jobs, key)
  {
    hide PurgeFrom;
    PurgeFed(q, now, 0, key);
  }

  lemma OneFed(q: Queue, id: nat, now: nat, key: string)
    requires Fed(q.jobs, key)
    ensures Fed(CollectOnce(q, id).1.jobs, key)
    ensures Fed(Core.InterruptRun(q, id, now).1.jobs, key)
  {
    hide FindJob;
  }

  lemma NextFed(w: World, step: Step, key: string)
    requires Fed(w.q.jobs, key) && FeedsOnly(step, key)
    ensures Fed(Next(w, step).q.jobs, key)
  {
    hide Fed, ScanFrom, Position, Core.Finish;
    hide Core.Submit, CollectOnce, Core.InterruptSession, Core.InterruptRun, Core.Abandon, Core.Shutdown, Purge;
    var now := w.clock + step.elapsed;
    match step.op
    case Submit(r, ids) => SubmitFed(w.q, r, ids, now, key);
    case Poll(k) => ScanFed(w.q, now, 0, key);
    case Begin(k) =>
    case Finish(k, result) =>
      if k < |w.workers| && w.workers[k].Executing? {
        var i := Position(w.q.jobs, w.workers[k].serial, 0);
        if i < |w.q.jobs| { FinishFed(w.q, i, if w.workers[k].ran then result else Cancelled, now, key); }
      }
    case Look(id) => OneFed(w.q, id, now, key);
    case InterruptSession(who) => InterruptSessionFed(w.q, who, now, key);
    case InterruptRun(id) => OneFed(w.q, id, now, key);
    case Abandon(id) => AbandonFed(w.q, id, now, key);
    case Shutdown => ShutdownFed(w.q, now, key);
    case GetStatus => PurgeAllFed(w.q, now, key);
  }

  lemma {:induction false} RunFed(config: Config, workers: nat, steps: seq<Step>, key: string)
    requires forall n :: 0 <= n < |steps| ==> FeedsOnly(steps[n], key)
    ensures Fed(Run(config, workers, steps).q.jobs, key)
  {
    hide Next, FeedsOnly;
    if steps != [] {
      RunFed(config, workers, steps[..|steps| - 1], key);
      NextFed(Run(config, workers, steps[..|steps| - 1]), steps[|steps| - 1], key);
    }
  }

  /** Unfinished and not yet told to stop. */
  predicate Live(j: Job) {
    j.state == Pending || (j.state == Running && !j.cancelled)
  }

  /** A session that is only ever steered or interrupted has at most one live job. */
  lemma SteeredSession(config: Config, workers: nat, steps: seq<Step>, key: string, k: nat, l: nat)
    requires forall n :: 0 <= n < |steps| ==> FeedsOnly(steps[n], key)
    requires var jobs := Run(config, workers, steps).q.jobs;
             k < |jobs| && l < |jobs| && jobs[k].session == key && jobs[l].session == key
             && Live(jobs[k]) && Live(jobs[l])
    ensures k == l
  {
    hide FeedsOnly, Run, CountersOk, LanesOk, SessionsOk, OrderOk, BackpressureOk, DroppedOk;
    RunFed(config, workers, steps, key);
    RunInv(config, workers, steps);
  }
}
