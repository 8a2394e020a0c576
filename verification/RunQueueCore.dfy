/**
 The state behind the run-queue mutex and one function per locked region.

 `jobs` is the linked list from head to tail. `serial` numbers the accepted submissions and stands for
 the identity of a job; `dropped` collects the serials of jobs that were completed before a worker took
 them. Both are history: no branch reads them.
 */
module RunQueueCore {
  import opened Common

  const LANES: nat := 4
  const MAX_SESSIONS: nat := 128
  const ID_RETRIES: nat := 8

  datatype Action = Steer | Followup | Collect | Interrupt
  datatype State = Pending | Running | Completed

  datatype Config = Config(
    concurrency: seq<int>,
    perSession: int,
    maxPending: int,
    maxTotal: nat,
    ttl: nat)

  datatype Job = Job(
    id: nat,
    session: string,
    lane: nat,
    action: Action,
    state: State,
    cancelled: bool,
    result: Status,
    completedAt: nat,
    abandoned: bool,
    serial: nat)

  datatype Session = Session(key: string, inFlight: nat, generation: nat)

  datatype Counters = Counters(
    inFlight: nat,
    pending: nat,
    completed: nat,
    total: nat,
    submitted: nat,
    finished: nat,
    cancelled: nat,
    abandoned: nat)

  datatype Queue = Queue(
    config: Config,
    lanes: seq<nat>,
    sessions: seq<Session>,
    jobs: seq<Job>,
    counters: Counters,
    shuttingDown: bool,
    dropped: set<nat>)

  datatype Request = Request(session: string, lane: nat, action: Action)

  /** A non-positive limit means one. */
  function Limit(value: int): (r: nat) {
    if value <= 0 then 1 else value
  }

  function LaneLimit(c: Config, lane: nat): nat {
    if lane < |c.concurrency| then Limit(c.concurrency[lane]) else 1
  }

  function Dec(n: nat): nat {
    if n > 0 then n - 1 else 0
  }

  function Init(config: Config): Queue {
    Queue(config, seq(LANES, i => 0), [], [], Counters(0, 0, 0, 0, 0, 0, 0, 0), false, {})
  }

  // ---- lookups ---------------------------------------------------------------------------------

  /** The position of a session's entry, or the length of the table. */
  function FindSession(sessions: seq<Session>, key: string, i: nat): (r: nat)
    requires i <= |sessions|
    ensures i <= r <= |sessions|
    ensures r < |sessions| ==> sessions[r].key == key
    ensures forall k :: i <= k < r ==> sessions[k].key != key
    decreases |sessions| - i
  {
    if i == |sessions| || sessions[i].key == key then i else FindSession(sessions, key, i + 1)
  }

  /** The position of the job with an id, or the length of the list. */
  function FindJob(jobs: seq<Job>, id: nat, i: nat): (r: nat)
    requires i <= |jobs|
    ensures i <= r <= |jobs|
    ensures r < |jobs| ==> jobs[r].id == id
    ensures forall k :: i <= k < r ==> jobs[k].id != id
    decreases |jobs| - i
  {
    if i == |jobs| || jobs[i].id == id then i else FindJob(jobs, id, i + 1)
  }

  function Count(jobs: seq<Job>, f: Job -> bool): (r: nat)
    ensures r <= |jobs|
  {
    if jobs == [] then 0
    else Count(jobs[..|jobs| - 1], f) + if f(jobs[|jobs| - 1]) then 1 else 0
  }

  function In(state: State): Job -> bool {
    (j: Job) => j.state == state
  }

  function PendingOf(key: string): Job -> bool {
    (j: Job) => j.state == Pending && j.session == key
  }

  function RunningOf(key: string): Job -> bool {
    (j: Job) => j.state == Running && j.session == key
  }

  function RunningIn(lane: nat): Job -> bool {
    (j: Job) => j.state == Running && j.lane == lane
  }

  // ---- single-job transitions ------------------------------------------------------------------

  /** A pending job is finished as cancelled without ever running. */
  function CompletePending(q: Queue, i: nat, now: nat): Queue
    requires i < |q.jobs|
  {
    var j := q.jobs[i];
    if j.state != Pending then q
    else q.(jobs := q.jobs[i := j.(state := Completed, result := Cancelled, cancelled := true, completedAt := now)],
            counters := q.counters.(pending := Dec(q.counters.pending), completed := q.counters.completed + 1,
                                    finished := q.counters.finished + 1, cancelled := q.counters.cancelled + 1),
            dropped := q.dropped + {j.serial})
  }

  function CancelToken(q: Queue, i: nat): Queue
    requires i < |q.jobs|
  {
    q.(jobs := q.jobs[i := q.jobs[i].(cancelled := true)])
  }

  /** A pending job starts; s is its session's entry. */
  function Start(q: Queue, i: nat, s: nat): Queue
    requires i < |q.jobs| && s < |q.sessions| && q.jobs[i].lane < |q.lanes|
  {
    var j := q.jobs[i];
    q.(jobs := q.jobs[i := j.(state := Running)],
       sessions := q.sessions[s := q.sessions[s].(inFlight := q.sessions[s].inFlight + 1)],
       lanes := q.lanes[j.lane := q.lanes[j.lane] + 1],
       counters := q.counters.(inFlight := q.counters.inFlight + 1, pending := Dec(q.counters.pending)))
  }

  function RemoveIdle(sessions: seq<Session>, s: nat): seq<Session>
    requires s < |sessions|
  {
    var last := |sessions| - 1;
    if sessions[s].inFlight != 0 then sessions
    else if s != last then sessions[..last][s := sessions[last]]
    else sessions[..last]
  }

  function LeaveSession(sessions: seq<Session>, key: string): seq<Session> {
    var s := FindSession(sessions, key, 0);
    if s == |sessions| then sessions
    else RemoveIdle(sessions[s := sessions[s].(inFlight := Dec(sessions[s].inFlight))], s)
  }

  function FinishRunning(q: Queue, i: nat, result: Status, now: nat): Queue
    requires i < |q.jobs|
  {
    var j := q.jobs[i];
    q.(jobs := q.jobs[i := j.(state := Completed, result := result, completedAt := now)],
       lanes := if j.lane < |q.lanes| then q.lanes[j.lane := Dec(q.lanes[j.lane])] else q.lanes,
       sessions := LeaveSession(q.sessions, j.session),
       counters := q.counters.(inFlight := Dec(q.counters.inFlight), completed := q.counters.completed + 1,
                               finished := q.counters.finished + 1,
                               cancelled := q.counters.cancelled + if result == Cancelled then 1 else 0))
  }

  function Remove(q: Queue, i: nat): Queue
    requires i < |q.jobs|
  {
    q.(jobs := q.jobs[..i] + q.jobs[i + 1..],
       counters := q.counters.(total := Dec(q.counters.total),
                               completed := if q.jobs[i].state == Completed then Dec(q.counters.completed)
                                            else q.counters.completed))
  }

  function Append(q: Queue, id: nat, r: Request): Queue {
    q.(jobs := q.jobs + [Job(id, r.session, r.lane, r.action, Pending, false, Ok, 0, false, q.counters.submitted)],
       counters := q.counters.(pending := q.counters.pending + 1, total := q.counters.total + 1,
                               submitted := q.counters.submitted + 1))
  }

  // ---- loops over the list ---------------------------------------------------------------------

  /** Cancel the pending jobs and the running jobs of one session, or of all, from position i on. */
  function CancelFrom(q: Queue, who: Option<string>, pending: bool, running: bool, now: nat, i: nat): (r: Queue)
    requires i <= |q.jobs|
    ensures |r.jobs| == |q.jobs|
    decreases |q.jobs| - i
  {
    if i == |q.jobs| then q
    else if who.Some? && q.jobs[i].session != who.value then CancelFrom(q, who, pending, running, now, i + 1)
    else if pending && q.jobs[i].state == Pending then
      CancelFrom(CompletePending(q, i, now), who, pending, running, now, i + 1)
    else if running && q.jobs[i].state == Running then
      CancelFrom(CancelToken(q, i), who, pending, running, now, i + 1)
    else CancelFrom(q, who, pending, running, now, i + 1)
  }

  predicate Expired(q: Queue, i: nat, now: nat)
    requires i < |q.jobs|
  {
    q.jobs[i].state == Completed && now - q.jobs[i].completedAt >= q.config.ttl
  }

  function PurgeFrom(q: Queue, now: nat, i: nat): Queue
    requires i <= |q.jobs|
    decreases |q.jobs| - i
  {
    if i == |q.jobs| then q
    else if Expired(q, i, now) then PurgeFrom(Remove(q, i), now, i)
    else PurgeFrom(q, now, i + 1)
  }

  function Purge(q: Queue, now: nat): Queue {
    if q.config.ttl == 0 then q else PurgeFrom(q, now, 0)
  }

  predicate CanRun(q: Queue, s: nat, lane: nat)
    requires s < |q.sessions| && lane < |q.lanes|
  {
    q.sessions[s].inFlight < Limit(q.config.perSession) && q.lanes[lane] < LaneLimit(q.config, lane)
  }

  /** Register a session the scheduler meets for the first time, if the table has room. */
  function Track(q: Queue, key: string): Queue {
    if FindSession(q.sessions, key, 0) == |q.sessions| && |q.sessions| < MAX_SESSIONS then
      q.(sessions := q.sessions + [Session(key, 0, 0)])
    else q
  }

  /** The scheduler's scan from position i on: the job it starts, if any, and the new state. */
  function ScanFrom(q: Queue, now: nat, i: nat): (r: (Option<nat>, Queue))
    requires i <= |q.jobs|
    ensures |r.1.jobs| == |q.jobs|
    decreases |q.jobs| - i
  {
    if i == |q.jobs| then (None, q)
    else if q.jobs[i].state != Pending then ScanFrom(q, now, i + 1)
    else if q.jobs[i].lane >= |q.lanes| then ScanFrom(CompletePending(q, i, now), now, i + 1)
    else
      var t := Track(q, q.jobs[i].session);
      var s := FindSession(t.sessions, t.jobs[i].session, 0);
      if s == |t.sessions| then ScanFrom(CompletePending(t, i, now), now, i + 1)
      else if CanRun(t, s, t.jobs[i].lane) then (Some(i), Start(t, i, s))
      else ScanFrom(t, now, i + 1)
  }

  // ---- operations ------------------------------------------------------------------------------

  /** The first of the candidate ids that no listed job has; after so many retries the submission fails. */
  function ChooseId(jobs: seq<Job>, ids: seq<nat>, k: nat): Option<nat>
    requires k <= |ids|
    decreases |ids| - k
  {
    if k == |ids| || k > ID_RETRIES then None
    else if FindJob(jobs, ids[k], 0) == |jobs| then Some(ids[k])
    else ChooseId(jobs, ids, k + 1)
  }

  function ApplyAction(q: Queue, r: Request, now: nat): (r': Queue)
    ensures |r'.jobs| == |q.jobs|
  {
    CancelFrom(q, Some(r.session), r.action != Followup, r.action == Steer || r.action == Interrupt, now, 0)
  }

  function Submit(q: Queue, r: Request, ids: seq<nat>, now: nat): (Status, nat, Queue) {
    if r.lane >= LANES then (InvalidArgument, 0, q)
    else if q.shuttingDown then (Cancelled, 0, q)
    else
      var p := Purge(q, now);
      if p.config.maxTotal > 0 && p.counters.total >= p.config.maxTotal then (QueueFull, 0, p)
      else if (r.action == Followup || r.action == Interrupt) && p.config.maxPending > 0
              && Count(p.jobs, PendingOf(r.session)) >= p.config.maxPending then (QueueFull, 0, p)
      else
        var id := ChooseId(p.jobs, ids, 0);
        if id.None? then (Platform, 0, p) else (Ok, id.value, Append(ApplyAction(p, r, now), id.value, r))
  }

  function InterruptSession(q: Queue, key: string, now: nat): Queue {
    var s := FindSession(q.sessions, key, 0);
    var q1 := if s == |q.sessions| then q
              else q.(sessions := q.sessions[s := q.sessions[s].(generation := q.sessions[s].generation + 1)]);
    CancelFrom(q1, Some(key), true, true, now, 0)
  }

  /** Cancel one job, whatever its state. */
  function CancelOne(q: Queue, i: nat, now: nat): Queue
    requires i < |q.jobs|
  {
    if q.jobs[i].state == Pending then CompletePending(q, i, now)
    else if q.jobs[i].state == Running then CancelToken(q, i)
    else q
  }

  function InterruptRun(q: Queue, id: nat, now: nat): (Status, Queue) {
    var i := FindJob(q.jobs, id, 0);
    if id == 0 then (InvalidArgument, q)
    else if i == |q.jobs| then (Status.NotFound, q)
    else (Ok, CancelOne(q, i, now))
  }

  function Abandon(q: Queue, id: nat, now: nat): (Status, Queue) {
    var i := FindJob(q.jobs, id, 0);
    if id == 0 then (InvalidArgument, q)
    else if i == |q.jobs| then (Status.NotFound, q)
    else
      var q1 := q.(counters := q.counters.(abandoned := q.counters.abandoned + 1));
      if q.jobs[i].state == Running then
        (Ok, CancelToken(q1.(jobs := q1.jobs[i := q1.jobs[i].(abandoned := true)]), i))
      else if q.jobs[i].state == Pending then (Ok, Remove(CompletePending(q1, i, now), i))
      else (Ok, Remove(q1, i))
  }

  /** One look of a collector at its job: None means it has to wait. */
  function CollectOnce(q: Queue, id: nat): (Option<Status>, Queue) {
    var i := FindJob(q.jobs, id, 0);
    if id == 0 then (Some(InvalidArgument), q)
    else if i == |q.jobs| then (Some(Status.NotFound), q)
    else if q.jobs[i].state != Completed then (None, q)
    else (Some(q.jobs[i].result), Remove(q, i))
  }

  function Shutdown(q: Queue, now: nat): Queue {
    if q.shuttingDown then q else CancelFrom(q.(shuttingDown := true), None, true, true, now, 0)
  }

  /** The locked region after a task: i is the position of the worker's job. */
  function Finish(q: Queue, i: nat, result: Status, now: nat): Queue
    requires i < |q.jobs|
  {
    var f := FinishRunning(q, i, result, now);
    var k := FindJob(f.jobs, f.jobs[i].id, 0);
    if q.jobs[i].abandoned && k < |f.jobs| then Remove(f, k) else f
  }
}
