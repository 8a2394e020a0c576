/** What a collector gets: the result that the job's own worker came back with, for as long as it is kept. */
module RunQueueResults {
  import opened Common
  import Core = RunQueueCore
  import opened RunQueueCore
  import opened RunQueueInvariant
  import Threads = RunQueueWorld
  import opened RunQueueWorld
  import opened RunQueueTheorems

  // ---- results and reports ------------------------------------------------------------------------

  /** A completed job was either dropped or reported, and holds what was reported; other jobs are neither. */
  predicate JobOk(j: Job, dropped: set<nat>, reported: map<nat, Status>) {
    if j.state == Completed then
      if j.serial in dropped then j.result == Cancelled && j.serial !in reported
      else j.serial in reported && reported[j.serial] == j.result
    else j.serial !in dropped && j.serial !in reported
  }

  function CancelledIn(reported: map<nat, Status>): set<nat> {
    set s | s in reported && reported[s] == Cancelled
  }

  ghost predicate ResultsOk(q: Queue, reported: map<nat, Status>) {
    && (forall k :: 0 <= k < |q.jobs| ==> JobOk(q.jobs[k], q.dropped, reported))
    && (forall s :: s in reported ==> s < q.counters.submitted && s !in q.dropped)
    && q.counters.finished == |q.dropped| + |reported|
    && q.counters.cancelled == |q.dropped| + |CancelledIn(reported)|
  }

  // ---- one job ------------------------------------------------------------------------------------

  lemma CompleteResults(q: Queue, i: nat, now: nat, reported: map<nat, Status>)
    requires QueueInv(q) && ResultsOk(q, reported) && i < |q.jobs| && q.jobs[i].state == Pending
    ensures ResultsOk(CompletePending(q, i, now), reported)
  {
    hide CountersOk, LanesOk, SessionsOk, BackpressureOk, SteerOk;
    assert JobOk(q.jobs[i], q.dropped, reported);
    var r := CompletePending(q, i, now);
    assert |q.dropped + {q.jobs[i].serial}| == |q.dropped| + 1;
    forall k | 0 <= k < |r.jobs|
      ensures JobOk(r.jobs[k], r.dropped, reported)
    {
      assert JobOk(q.jobs[k], q.dropped, reported);
      assert k != i ==> q.jobs[k].serial != q.jobs[i].serial;
    }
  }

  /** A change that touches neither state nor result. */
  lemma FlagResults(q: Queue, i: nat, j: Job, reported: map<nat, Status>)
    requires ResultsOk(q, reported) && i < |q.jobs|
    requires j.state == q.jobs[i].state && j.serial == q.jobs[i].serial && j.result == q.jobs[i].result
    ensures ResultsOk(q.(jobs := q.jobs[i := j]), reported)
  {
    assert JobOk(q.jobs[i], q.dropped, reported);
  }

  lemma TokenResults(q: Queue, i: nat, reported: map<nat, Status>)
    requires ResultsOk(q, reported) && i < |q.jobs|
    ensures ResultsOk(CancelToken(q, i), reported)
  {
    FlagResults(q, i, q.jobs[i].(cancelled := true), reported);
  }

  lemma RemoveResults(q: Queue, i: nat, reported: map<nat, Status>)
    requires ResultsOk(q, reported) && i < |q.jobs|
    ensures ResultsOk(Remove(q, i), reported)
  {
    hide JobOk;
    var rest := q.jobs[..i] + q.jobs[i + 1..];
    assert forall k :: 0 <= k < |rest| ==> rest[k] == q.jobs[if k < i then k else k + 1];
  }

  lemma AppendResults(q: Queue, id: nat, r: Request, reported: map<nat, Status>)
    requires QueueInv(q) && ResultsOk(q, reported)
    ensures ResultsOk(Append(q, id, r), reported)
  {
    hide CountersOk, LanesOk, SessionsOk, BackpressureOk, SteerOk, OrderOk;
    assert q.counters.submitted !in q.dropped;
  }

  lemma StartResults(q: Queue, i: nat, s: nat, reported: map<nat, Status>)
    requires ResultsOk(q, reported) && i < |q.jobs| && q.jobs[i].state == Pending
    requires s < |q.sessions| && q.jobs[i].lane < |q.lanes|
    ensures ResultsOk(Start(q, i, s), reported)
  {
    assert JobOk(q.jobs[i], q.dropped, reported);
  }

  lemma SameResults(q: Queue, q': Queue, reported: map<nat, Status>)
    requires ResultsOk(q, reported) && q'.jobs == q.jobs && q'.dropped == q.dropped
    requires q'.counters.submitted == q.counters.submitted && q'.counters.finished == q.counters.finished
    requires q'.counters.cancelled == q.counters.cancelled
    ensures ResultsOk(q', reported)
  {
    hide JobOk;
  }

  lemma ReportCount(reported: map<nat, Status>, s: nat, status: Status)
    requires s !in reported
    ensures |reported[s := status]| == |reported| + 1
    ensures |CancelledIn(reported[s := status])| == |CancelledIn(reported)| + if status == Cancelled then 1 else 0
  {
    var more := reported[s := status];
    if status == Cancelled {
      assert CancelledIn(more) == CancelledIn(reported) + {s};
    } else {
      assert CancelledIn(more) == CancelledIn(reported);
    }
  }

  /** The worker's report and the job's result are stored together. */
  lemma FinishRunningResults(q: Queue, i: nat, status: Status, now: nat, reported: map<nat, Status>)
    requires QueueInv(q) && ResultsOk(q, reported) && i < |q.jobs| && q.jobs[i].state == Running
    ensures ResultsOk(FinishRunning(q, i, status, now), reported[q.jobs[i].serial := status])
  {
    hide CountersOk, LanesOk, SessionsOk, BackpressureOk, SteerOk, LeaveSession, CancelledIn;
    var r, more := FinishRunning(q, i, status, now), reported[q.jobs[i].serial := status];
    assert JobOk(q.jobs[i], q.dropped, reported);
    ReportCount(reported, q.jobs[i].serial, status);
    forall k | 0 <= k < |r.jobs|
      ensures JobOk(r.jobs[k], r.dropped, more)
    {
      assert JobOk(q.jobs[k], q.dropped, reported);
      assert k != i ==> q.jobs[k].serial != q.jobs[i].serial;
    }
  }

  // ---- the loops ----------------------------------------------------------------------------------

  lemma {:induction false} CancelResults(q: Queue, who: Option<string>, pending: bool, running: bool, now: nat, i: nat,
                                         reported: map<nat, Status>)
    requires QueueInv(q) && ResultsOk(q, reported) && i <= |q.jobs|
    ensures ResultsOk(CancelFrom(q, who, pending, running, now, i), reported)
    decreases |q.jobs| - i
  {
    hide QueueInv, ResultsOk, CompletePending, CancelToken, Evolves;
    if i < |q.jobs| {
      if who.Some? && q.jobs[i].session != who.value {
        CancelResults(q, who, pending, running, now, i + 1, reported);
      } else if pending && q.jobs[i].state == Pending {
        CompleteStep(q, i, now);
        CompleteResults(q, i, now, reported);
        CancelResults(CompletePending(q, i, now), who, pending, running, now, i + 1, reported);
      } else if running && q.jobs[i].state == Running {
        CancelStep(q, i);
        TokenResults(q, i, reported);
        CancelResults(CancelToken(q, i), who, pending, running, now, i + 1, reported);
      } else {
        CancelResults(q, who, pending, running, now, i + 1, reported);
      }
    }
  }

  lemma {:induction false} PurgeFromResults(q: Queue, now: nat, i: nat, reported: map<nat, Status>)
    requires ResultsOk(q, reported) && i <= |q.jobs|
    ensures ResultsOk(PurgeFrom(q, now, i), reported)
    decreases |q.jobs| - i
  {
    hide ResultsOk;
    if i < |q.jobs| {
      if Expired(q, i, now) {
        RemoveResults(q, i, reported);
        PurgeFromResults(Remove(q, i), now, i, reported);
      } else {
        PurgeFromResults(q, now, i + 1, reported);
      }
    }
  }

  lemma PurgeResults(q: Queue, now: nat, reported: map<nat, Status>)
    requires ResultsOk(q, reported)
    ensures ResultsOk(Purge(q, now), reported)
  {
    hide ResultsOk, PurgeFrom;
    PurgeFromResults(q, now, 0, reported);
  }

  lemma {:induction false} ScanResults(q: Queue, now: nat, i: nat, reported: map<nat, Status>)
    requires QueueInv(q) && ResultsOk(q, reported) && i <= |q.jobs|
    ensures ResultsOk(ScanFrom(q, now, i).1, reported)
    decreases |q.jobs| - i
  {
    hide QueueInv, ResultsOk, CompletePending, Start, Track, Evolves, CanRun;
    if i < |q.jobs| {
      var j := q.jobs[i];
      if j.state != Pending {
        ScanResults(q, now, i + 1, reported);
      } else if j.lane >= |q.lanes| {
        CompleteStep(q, i, now);
        CompleteResults(q, i, now, reported);
        ScanResults(CompletePending(q, i, now), now, i + 1, reported);
      } else {
        var t := Track(q, j.session);
        TrackInv(q, j.session);
        SameResults(q, t, reported);
        var s := FindSession(t.sessions, t.jobs[i].session, 0);
        if s == |t.sessions| {
          CompleteStep(t, i, now);
          CompleteResults(t, i, now, reported);
          ScanResults(CompletePending(t, i, now), now, i + 1, reported);
        } else if CanRun(t, s, t.jobs[i].lane) {
          StartResults(t, i, s, reported);
        } else {
          ScanResults(t, now, i + 1, reported);
        }
      }
    }
  }

  // ---- the operations -----------------------------------------------------------------------------

  lemma SubmitResults(q: Queue, r: Request, ids: seq<nat>, now: nat, reported: map<nat, Status>)
    requires QueueInv(q) && ResultsOk(q, reported)
    ensures ResultsOk(Core.Submit(q, r, ids, now).2, reported)
  {
    hide QueueInv, ResultsOk, Evolves, Purge, CancelFrom, Append, Count, ChooseId, Later, Settled;
    var p := Purge(q, now);
    PurgeInv(q, now);
    PurgeResults(q, now, reported);
    ApplyActionInv(p, r, now);
    CancelResults(p, Some(r.session), r.action != Followup, r.action == Steer || r.action == Interrupt, now, 0, reported);
    var (status, id, r') := Core.Submit(q, r, ids, now);
    if status == Ok { AppendResults(ApplyAction(p, r, now), id, r, reported); }
  }

  lemma InterruptSessionResults(q: Queue, key: string, now: nat, reported: map<nat, Status>)
    requires QueueInv(q) && ResultsOk(q, reported)
    ensures ResultsOk(Core.InterruptSession(q, key, now), reported)
  {
    hide QueueInv, ResultsOk, CancelFrom;
    var s := FindSession(q.sessions, key, 0);
    var q1 := if s == |q.sessions| then q
              else q.(sessions := q.sessions[s := q.sessions[s].(generation := q.sessions[s].generation + 1)]);
    if s < |q.sessions| { GenerationInv(q, s); }
    SameResults(q, q1, reported);
    CancelResults(q1, Some(key), true, true, now, 0, reported);
  }

  lemma CancelOneResults(q: Queue, i: nat, now: nat, reported: map<nat, Status>)
    requires QueueInv(q) && ResultsOk(q, reported) && i < |q.jobs|
    ensures ResultsOk(CancelOne(q, i, now), reported)
  {
    hide QueueInv, ResultsOk, CompletePending, CancelToken;
    if q.jobs[i].state == Pending { CompleteResults(q, i, now, reported); } else { TokenResults(q, i, reported); }
  }

  lemma AbandonResults(q: Queue, id: nat, now: nat, reported: map<nat, Status>)
    requires QueueInv(q) && ResultsOk(q, reported)
    ensures ResultsOk(Core.Abandon(q, id, now).1, reported)
  {
    hide QueueInv, ResultsOk, Remove, CompletePending, CancelToken, Evolves;
    var i := FindJob(q.jobs, id, 0);
    if id != 0 && i < |q.jobs| {
      var q1 := q.(counters := q.counters.(abandoned := q.counters.abandoned + 1));
      AbandonedCountInv(q, q.counters.abandoned + 1);
      SameResults(q, q1, reported);
      if q.jobs[i].state == Running {
        var q2 := q1.(jobs := q1.jobs[i := q1.jobs[i].(abandoned := true)]);
        FlagResults(q1, i, q2.jobs[i], reported);
        TokenResults(q2, i, reported);
      } else if q.jobs[i].state == Pending {
        CompleteStep(q1, i, now);
        CompleteResults(q1, i, now, reported);
        RemoveResults(CompletePending(q1, i, now), i, reported);
      } else {
        RemoveResults(q1, i, reported);
      }
    }
  }

  lemma ShutdownResults(q: Queue, now: nat, reported: map<nat, Status>)
    requires QueueInv(q) && ResultsOk(q, reported)
    ensures ResultsOk(Core.Shutdown(q, now), reported)
  {
    hide QueueInv, ResultsOk, CancelFrom;
    var q1 := q.(shuttingDown := true);
    StopInv(q);
    SameResults(q, q1, reported);
    CancelResults(q1, None, true, true, now, 0, reported);
  }

  lemma FinishResults(q: Queue, i: nat, status: Status, now: nat, reported: map<nat, Status>)
    requires QueueInv(q) && ResultsOk(q, reported) && i < |q.jobs| && q.jobs[i].state == Running
    ensures ResultsOk(Core.Finish(q, i, status, now), reported[q.jobs[i].serial := status])
  {
    hide QueueInv, ResultsOk, FinishRunning, Remove;
    FinishRunningResults(q, i, status, now, reported);
    var f, more := FinishRunning(q, i, status, now), reported[q.jobs[i].serial := status];
    FinishLength(q, i, status, now);
    var k := FindJob(f.jobs, f.jobs[i].id, 0);
    if k < |f.jobs| { RemoveResults(f, k, more); }
  }

  lemma FinishLength(q: Queue, i: nat, status: Status, now: nat)
    requires i < |q.jobs|
    ensures |FinishRunning(q, i, status, now).jobs| == |q.jobs|
  {
    hide LeaveSession;
  }

  // ---- runs ---------------------------------------------------------------------------------------

  lemma NextResults(w0: World, step: Step)
    requires WorldInv(w0) && ResultsOk(w0.q, w0.reported)
    ensures ResultsOk(Next(w0, step).q, Next(w0, step).reported)
  {
    hide QueueInv, StoppedOk, WorkersOk, ExecutedOk, ResultsOk, ScanFrom, Position, Core.Finish, Remove;
    hide Core.Submit, Core.InterruptSession, CancelOne, Core.Abandon, Core.Shutdown, Purge;
    var w := w0.(clock := w0.clock + step.elapsed);
    assert WorldInv(w);
    match step.op
    case Submit(r, ids) => SubmitResults(w.q, r, ids, w.clock, w.reported);
    case Poll(k) => ScanResults(w.q, w.clock, 0, w.reported);
    case Begin(k) =>
    case Finish(k, result) =>
      if k < |w.workers| && w.workers[k].Executing? {
        ServedPosition(w, k);
        FinishResults(w.q, Position(w.q.jobs, w.workers[k].serial, 0), if w.workers[k].ran then result else Cancelled,
                      w.clock, w.reported);
      }
    case Look(id) =>
      var i := FindJob(w.q.jobs, id, 0);
      if i < |w.q.jobs| { RemoveResults(w.q, i, w.reported); }
    case InterruptSession(key) => InterruptSessionResults(w.q, key, w.clock, w.reported);
    case InterruptRun(id) =>
      var i := FindJob(w.q.jobs, id, 0);
      if i < |w.q.jobs| { CancelOneResults(w.q, i, w.clock, w.reported); }
    case Abandon(id) => AbandonResults(w.q, id, w.clock, w.reported);
    case Shutdown => ShutdownResults(w.q, w.clock, w.reported);
    case GetStatus => PurgeResults(w.q, w.clock, w.reported);
  }

  /** What was not called was reported as cancelled. */
  ghost predicate SilentOk(executed: seq<nat>, reported: map<nat, Status>) {
    forall s :: s in reported && s !in executed ==> reported[s] == Cancelled
  }

  lemma NextSilent(w0: World, step: Step)
    requires WorldInv(w0) && SilentOk(w0.executed, w0.reported)
    ensures SilentOk(Next(w0, step).executed, Next(w0, step).reported)
  {
    hide QueueInv, StoppedOk, WorkersOk, ScanFrom, Position, Core.Finish, Has;
    hide Core.Submit, CollectOnce, Core.InterruptSession, Core.InterruptRun, Core.Abandon, Core.Shutdown, Purge;
  }

  lemma {:induction false} RunResults(config: Config, workers: nat, steps: seq<Step>)
    ensures var w := Run(config, workers, steps); ResultsOk(w.q, w.reported) && SilentOk(w.executed, w.reported)
  {
    hide Next, WorldInv;
    if steps == [] {
      InitResults(config, workers);
    } else {
      var init := steps[..|steps| - 1];
      RunResults(config, workers, init);
      RunInv(config, workers, init);
      NextResults(Run(config, workers, init), steps[|steps| - 1]);
      NextSilent(Run(config, workers, init), steps[|steps| - 1]);
    }
  }

  lemma InitResults(config: Config, workers: nat)
    ensures var w := Threads.Init(config, workers); ResultsOk(w.q, w.reported) && SilentOk(w.executed, w.reported)
  {
    assert CancelledIn(map[]) == {};
  }

  /** What a collector should be told about a job that was accepted as number s. */
  function Recorded(w: World, s: nat): Status
    requires s in w.q.dropped || s in w.reported
  {
    if s in w.q.dropped then Cancelled else w.reported[s]
  }

  /**
   In every reachable state, a collector that looks for the job at position i is told to wait until the job is
   completed, and then is handed what its worker came back with: the result of its task, or Cancelled if the
   task was never called or the job was dropped while it was pending.
   */
  lemma CollectedResult(w: World, i: nat)
    requires Reachable(w) && i < |w.q.jobs| && w.q.jobs[i].id != 0
    ensures var j, told := w.q.jobs[i], CollectOnce(w.q, w.q.jobs[i].id).0;
            && (told == None <==> j.state != Completed)
            && (told.Some? ==> (j.serial in w.q.dropped || j.serial in w.reported) && told == Some(Recorded(w, j.serial)))
            && (told.Some? && j.serial !in w.executed ==> told == Some(Cancelled))
  {
    hide Run, CancelledIn, CountersOk, LanesOk, SessionsOk, BackpressureOk, SteerOk, DroppedOk, StoppedOk, WorkersOk;
    ReachableInv(w);
    var config, workers, steps :| w == Run(config, workers, steps);
    RunResults(config, workers, steps);
    assert JobOk(w.q.jobs[i], w.q.dropped, w.reported);
    assert FindJob(w.q.jobs, w.q.jobs[i].id, 0) == i;
  }

  /** The counters are recounts of what was dropped and reported. */
  lemma OutcomeCounts(w: World)
    requires Reachable(w)
    ensures w.q.counters.finished == |w.q.dropped| + |w.reported|
    ensures w.q.counters.cancelled == |w.q.dropped| + |set s | s in w.reported && w.reported[s] == Cancelled|
    ensures forall s :: s in w.reported ==> s !in w.q.dropped
  {
    hide Run;
    var config, workers, steps :| w == Run(config, workers, steps);
    RunResults(config, workers, steps);
    assert CancelledIn(w.reported) == set s | s in w.reported && w.reported[s] == Cancelled;
  }
}
