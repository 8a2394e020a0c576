/**
 The run queue as it is stored: a singly linked list of job nodes with head and tail, a compact table of
 sessions, lane counters and redundant totals. Each method is one locked region, or a part of one, and is
 proved to do to the abstract state exactly what the function of RunQueueCore says.
 */
module RunQueue {
  import opened Common
  import Core = RunQueueCore
  import opened RunQueueCore

  class Node {
    var job: Job
    var next: Node?

    constructor (job: Job)
      ensures this.job == job && next == null
    {
      this.job, this.next := job, null;
    }
  }

  /** The nodes from head to tail are those of the spine, without repetition, and carry the listed jobs. */
  ghost predicate Linked(spine: seq<Node>, list: seq<Job>, head: Node?, tail: Node?)
    reads spine
  {
    && |list| == |spine|
    && head == (if spine == [] then null else spine[0])
    && tail == (if spine == [] then null else spine[|spine| - 1])
    && (forall i, j :: 0 <= i < j < |spine| ==> spine[i] != spine[j])
    && (forall i :: 0 <= i < |spine| ==> spine[i].job == list[i])
    && (forall i :: 0 <= i < |spine| - 1 ==> spine[i].next == spine[i + 1])
    && (spine != [] ==> spine[|spine| - 1].next == null)
  }

  class RunQueue {
    const config: Config
    const lanes: array<nat>
    const table: array<Session>
    var sessionCount: nat
    var head: Node?
    var tail: Node?
    var counters: Counters
    var shuttingDown: bool
    ghost var spine: seq<Node>
    ghost var list: seq<Job>
    ghost var dropped: set<nat>

    ghost predicate Valid()
      reads this, lanes, table, spine
    {
      && lanes.Length == LANES && table.Length == MAX_SESSIONS && sessionCount <= MAX_SESSIONS
      && Linked(spine, list, head, tail)
    }

    ghost function Nodes(): set<Node>
      reads this
    {
      set n | n in spine
    }

    /** The state of RunQueueCore that the fields represent. */
    ghost function Abs(): Queue
      requires sessionCount <= table.Length
      reads this, lanes, table
    {
      Queue(config, lanes[..], table[..sessionCount], list, counters, shuttingDown, dropped)
    }

    constructor (config: Config)
      ensures Valid() && Abs() == Core.Init(config) && fresh(lanes) && fresh(table)
    {
      this.config := config;
      lanes := new nat[LANES](i => 0);
      table := new Session[MAX_SESSIONS](i => Session("", 0, 0));
      sessionCount, head, tail, shuttingDown := 0, null, null, false;
      counters := Counters(0, 0, 0, 0, 0, 0, 0, 0);
      spine, list, dropped := [], [], {};
    }

    lemma NodeAt(i: nat)
      requires Valid() && i < |spine|
      ensures |list| == |spine| && spine[i].job == list[i]
      ensures spine[i].next == if i + 1 < |spine| then spine[i + 1] else null
    {
    }

    lemma HeadIs()
      requires Valid()
      ensures |list| == |spine| && head == if spine == [] then null else spine[0]
    {
    }

    // ---- nodes -----------------------------------------------------------------------------------

    /** Overwrite the job of the i-th node. */
    method SetJob(node: Node, ghost i: nat, j: Job)
      requires Valid() && i < |spine| && spine[i] == node
      modifies node`job, `list
      ensures Valid() && list == old(list)[i := j] && node.job == j
      ensures Abs() == old(Abs()).(jobs := old(list)[i := j])
    {
      node.job := j;
      list := list[i := j];
    }

    /** Take the i-th node, whose predecessor is `prev`, out of the links. */
    method Detach(node: Node, prev: Node?, ghost i: nat)
      requires Linked(spine, list, head, tail) && i < |spine| && spine[i] == node
      requires prev == if i == 0 then null else spine[i - 1]
      modifies `head, `tail, `spine, `list, prev, node
      ensures Linked(spine, list, head, tail) && node.job == old(node.job)
      ensures spine == old(spine)[..i] + old(spine)[i + 1..] && list == old(list)[..i] + old(list)[i + 1..]
    {
      ghost var nodes, jobs := spine, list;
      if prev == null { head := node.next; } else { prev.next := node.next; }
      if tail == node { tail := prev; }
      node.next := null;
      spine := nodes[..i] + nodes[i + 1..];
      list := jobs[..i] + jobs[i + 1..];
      forall k | 0 <= k < |spine|
        ensures spine[k] == nodes[if k < i then k else k + 1] && spine[k].job == list[k]
        ensures spine[k].next == if k + 1 < |spine| then spine[k + 1] else null
      {
        if k < i { assert nodes[k] != nodes[i]; }
      }
    }

    /** Detach a node and adjust the totals. */
    method Unlink(node: Node, prev: Node?, ghost i: nat)
      requires Valid() && i < |spine| && spine[i] == node
      requires prev == if i == 0 then null else spine[i - 1]
      modifies this, prev, node
      ensures Valid() && spine == old(spine)[..i] + old(spine)[i + 1..]
      ensures Abs() == Remove(old(Abs()), i)
      ensures node.job == old(node.job)
    {
      var state := node.job.state;
      assert state == list[i].state;
      Detach(node, prev, i);
      counters := counters.(total := Dec(counters.total),
                            completed := if state == Completed then Dec(counters.completed) else counters.completed);
    }

    method FindJob(id: nat) returns (node: Node?, ghost i: nat)
      requires Valid()
      ensures |spine| == |list| && i == Core.FindJob(list, id, 0) && node == if i == |spine| then null else spine[i]
      ensures node != null ==> node.job == list[i]
    {
      node, i := head, 0;
      while node != null && node.job.id != id
        invariant i <= |spine| && node == if i == |spine| then null else spine[i]
        invariant Core.FindJob(list, id, i) == Core.FindJob(list, id, 0)
        decreases |spine| - i
      {
        node, i := node.next, i + 1;
      }
    }

    /** Find a job and take it off the list. */
    method TakeJob(id: nat) returns (node: Node?)
      requires Valid()
      modifies this, Nodes()
      ensures Valid() && |old(spine)| == |old(list)|
      ensures var i := Core.FindJob(old(list), id, 0);
              && (node == null <==> i == |old(list)|)
              && (node != null ==> node == old(spine)[i] && node.job == old(list)[i])
              && Abs() == if i == |old(list)| then old(Abs()) else Remove(old(Abs()), i)
    {
      var prev: Node? := null;
      ghost var i := 0;
      node := head;
      while node != null
        invariant Valid() && Abs() == old(Abs()) && spine == old(spine) && list == old(list)
        invariant i <= |spine| && node == if i == |spine| then null else spine[i]
        invariant prev == if i == 0 then null else spine[i - 1]
        invariant Core.FindJob(list, id, i) == Core.FindJob(list, id, 0)
        decreases |spine| - i
      {
        if node.job.id == id {
          Unlink(node, prev, i);
          return;
        }
        prev, node, i := node, node.next, i + 1;
      }
    }

    /** The number of pending jobs of a session. */
    method PendingCount(key: string) returns (count: nat)
      requires Valid()
      ensures count == Count(list, PendingOf(key))
    {
      var node := head;
      ghost var i := 0;
      count := 0;
      assert list[..0] == [];
      while node != null
        invariant i <= |spine| && node == if i == |spine| then null else spine[i]
        invariant count == Count(list[..i], PendingOf(key))
        decreases |spine| - i
      {
        if node.job.state == Pending && node.job.session == key { count := count + 1; }
        assert list[..i + 1][..i] == list[..i];
        node, i := node.next, i + 1;
      }
      assert list[..i] == list;
    }

    // ---- single-job transitions ------------------------------------------------------------------

    method CompletePending(node: Node, ghost i: nat, now: nat)
      requires Valid() && i < |spine| && spine[i] == node
      modifies node`job, this
      ensures Valid() && spine == old(spine) && Abs() == Core.CompletePending(old(Abs()), i, now)
      ensures node.job == list[i]
    {
      var j := node.job;
      if j.state != Pending { return; }
      SetJob(node, i, j.(state := Completed, result := Cancelled, cancelled := true, completedAt := now));
      counters := counters.(pending := Dec(counters.pending), completed := counters.completed + 1,
                            finished := counters.finished + 1, cancelled := counters.cancelled + 1);
      dropped := dropped + {j.serial};
    }

    method CancelToken(node: Node, ghost i: nat)
      requires Valid() && i < |spine| && spine[i] == node
      modifies node`job, `list
      ensures Valid() && Abs() == Core.CancelToken(old(Abs()), i)
    {
      SetJob(node, i, node.job.(cancelled := true));
    }

    // ---- sessions --------------------------------------------------------------------------------

    method FindSession(key: string) returns (s: nat)
      requires Valid()
      ensures s == Core.FindSession(Abs().sessions, key, 0)
    {
      s := 0;
      while s < sessionCount && table[s].key != key
        invariant s <= sessionCount
        invariant Core.FindSession(Abs().sessions, key, s) == Core.FindSession(Abs().sessions, key, 0)
      {
        s := s + 1;
      }
    }

    /** Find a session's entry, or create it if there is room; otherwise the result is the table's length. */
    method FindOrCreate(key: string) returns (s: nat)
      requires Valid()
      modifies table, `sessionCount
      ensures Valid() && Abs() == Track(old(Abs()), key)
      ensures s == Core.FindSession(Abs().sessions, key, 0)
    {
      s := FindSession(key);
      if s == sessionCount && sessionCount < MAX_SESSIONS {
        ghost var sessions := Abs().sessions;
        table[sessionCount] := Session(key, 0, 0);
        sessionCount := sessionCount + 1;
        assert table[..sessionCount] == sessions + [Session(key, 0, 0)];
        FindAppended(sessions, Session(key, 0, 0), 0);
      }
    }

    method LeaveSession(key: string)
      requires Valid()
      modifies table, `sessionCount
      ensures Valid() && Abs() == old(Abs()).(sessions := Core.LeaveSession(old(Abs()).sessions, key))
    {
      var s := FindSession(key);
      if s == sessionCount { return; }
      ghost var sessions := Abs().sessions;
      table[s] := table[s].(inFlight := Dec(table[s].inFlight));
      ghost var left := sessions[s := sessions[s].(inFlight := Dec(sessions[s].inFlight))];
      assert table[..sessionCount] == left;
      if table[s].inFlight != 0 { return; }
      var last := sessionCount - 1;
      if s != last { table[s] := table[last]; }
      sessionCount := last;
      assert table[..sessionCount] == RemoveIdle(left, s);
    }

    // ---- loops over the list ---------------------------------------------------------------------

    /** Cancel pending and running jobs of one session or of all. */
    method CancelMatching(who: Option<string>, pending: bool, running: bool, now: nat)
      requires Valid()
      modifies this, Nodes()
      ensures Valid() && spine == old(spine)
      ensures Abs() == CancelFrom(old(Abs()), who, pending, running, now, 0)
    {
      hide Linked, Core.CompletePending, Core.CancelToken;
      HeadIs();
      var node := head;
      ghost var i := 0;
      while node != null
        invariant Valid() && spine == old(spine) && |list| == |spine|
        invariant i <= |spine| && node == if i == |spine| then null else spine[i]
        invariant CancelFrom(Abs(), who, pending, running, now, i) == CancelFrom(old(Abs()), who, pending, running, now, 0)
        decreases |spine| - i
      {
        NodeAt(i);
        if who == None || node.job.session == who.value {
          if pending && node.job.state == Pending {
            CompletePending(node, i, now);
          } else if running && node.job.state == Running {
            CancelToken(node, i);
          }
        }
        NodeAt(i);
        node, i := node.next, i + 1;
      }
    }

    /** Drop completed jobs whose time to live is over. */
    method Purge(now: nat)
      requires Valid()
      modifies this, Nodes()
      ensures Valid() && Abs() == Core.Purge(old(Abs()), now)
      ensures Nodes() <= old(Nodes())
    {
      if config.ttl == 0 { return; }
      var prev: Node?, node: Node? := null, head;
      ghost var i := 0;
      while node != null
        invariant Valid() && Nodes() <= old(Nodes())
        invariant i <= |spine| && node == if i == |spine| then null else spine[i]
        invariant prev == if i == 0 then null else spine[i - 1]
        invariant PurgeFrom(Abs(), now, i) == PurgeFrom(old(Abs()), now, 0)
        decreases |spine| - i
      {
        var next := node.next;
        if node.job.state == Completed && now - node.job.completedAt >= config.ttl {
          assert node in spine && (prev != null ==> prev in spine);
          Unlink(node, prev, i);
        } else {
          prev, i := node, i + 1;
        }
        node := next;
      }
    }

    /** The scheduler's scan. */
    method FindRunnable(now: nat) returns (found: Node?, ghost k: Option<nat>)
      requires Valid()
      modifies this, Nodes(), lanes, table
      ensures Valid() && spine == old(spine) && (k, Abs()) == ScanFrom(old(Abs()), now, 0)
      ensures found == null <==> k.None?
      ensures k.Some? ==> k.value < |spine| && found == spine[k.value]
    {
      hide Linked, Core.CompletePending, Start, Track, Core.FindSession;
      HeadIs();
      var node := head;
      ghost var i := 0;
      while node != null
        invariant Valid() && spine == old(spine) && |list| == |spine|
        invariant i <= |spine| && node == if i == |spine| then null else spine[i]
        invariant ScanFrom(Abs(), now, i) == ScanFrom(old(Abs()), now, 0)
        decreases |spine| - i
      {
        NodeAt(i);
        if node.job.state == Pending {
          if node.job.lane >= LANES {
            CompletePending(node, i, now);
          } else {
            var s := FindOrCreate(node.job.session);
            if s == sessionCount {
              CompletePending(node, i, now);
            } else if table[s].inFlight < Limit(config.perSession) && lanes[node.job.lane] < LaneLimit(config, node.job.lane) {
              StartJob(node, i, s);
              return node, Some(i);
            }
          }
        }
        NodeAt(i);
        node, i := node.next, i + 1;
      }
      found, k := null, None;
    }

    method StartJob(node: Node, ghost i: nat, s: nat)
      requires Valid() && i < |spine| && spine[i] == node && s < sessionCount && node.job.lane < LANES
      modifies this, node`job, lanes, table
      ensures Valid() && spine == old(spine) && Abs() == Start(old(Abs()), i, s)
    {
      var lane := node.job.lane;
      ghost var q := Abs();
      table[s] := table[s].(inFlight := table[s].inFlight + 1);
      lanes[lane] := lanes[lane] + 1;
      counters := counters.(inFlight := counters.inFlight + 1, pending := Dec(counters.pending));
      SetJob(node, i, node.job.(state := Running));
      assert lanes[..] == q.lanes[lane := q.lanes[lane] + 1];
      assert table[..sessionCount] == q.sessions[s := q.sessions[s].(inFlight := q.sessions[s].inFlight + 1)];
    }

    // ---- locked regions --------------------------------------------------------------------------

    /** The worker's region after a task. */
    method Finish(node: Node, ghost i: nat, result: Status, now: nat)
      requires Valid() && i < |spine| && spine[i] == node
      modifies this, Nodes(), lanes, table
      ensures Valid() && Abs() == Core.Finish(old(Abs()), i, result, now)
    {
      var job := node.job;
      FinishRunning(node, i, result, now);
      if job.abandoned {
        var discard := TakeJob(job.id);
      }
    }

    method FinishRunning(node: Node, ghost i: nat, result: Status, now: nat)
      requires Valid() && i < |spine| && spine[i] == node
      modifies this, node`job, lanes, table
      ensures Valid() && spine == old(spine) && Abs() == Core.FinishRunning(old(Abs()), i, result, now)
    {
      hide Core.LeaveSession, Linked;
      NodeAt(i);
      var job := node.job;
      LeaveLane(job.lane);
      LeaveSession(job.session);
      counters := counters.(inFlight := Dec(counters.inFlight), completed := counters.completed + 1,
                            finished := counters.finished + 1,
                            cancelled := counters.cancelled + if result == Cancelled then 1 else 0);
      SetJob(node, i, job.(state := Completed, result := result, completedAt := now));
    }

    method LeaveLane(lane: nat)
      requires Valid()
      modifies lanes
      ensures Valid()
      ensures Abs() == old(Abs()).(lanes := if lane < |old(Abs()).lanes|
                                            then old(Abs()).lanes[lane := Dec(old(Abs()).lanes[lane])]
                                            else old(Abs()).lanes)
    {
      ghost var before := lanes[..];
      if lane < LANES {
        lanes[lane] := Dec(lanes[lane]);
        assert lanes[..] == before[lane := Dec(before[lane])];
      }
    }

    /** The retries draw further candidate ids. */
    method ChooseId(ids: seq<nat>) returns (id: Option<nat>)
      requires Valid()
      ensures id == Core.ChooseId(list, ids, 0)
    {
      var k := 0;
      while k < |ids| && k <= ID_RETRIES
        invariant k <= |ids| && Core.ChooseId(list, ids, k) == Core.ChooseId(list, ids, 0)
      {
        var node, i := FindJob(ids[k]);
        if node == null { return Some(ids[k]); }
        k := k + 1;
      }
      id := None;
    }

    method Append(id: nat, r: Request)
      requires Valid()
      modifies this, tail
      ensures Valid() && Abs() == Core.Append(old(Abs()), id, r)
    {
      var job := Job(id, r.session, r.lane, r.action, Pending, false, Ok, 0, false, counters.submitted);
      var node := new Node(job);
      if head == null {
        head, tail := node, node;
      } else {
        tail.next := node;
        tail := node;
      }
      spine, list := spine + [node], list + [job];
      counters := counters.(pending := counters.pending + 1, total := counters.total + 1,
                            submitted := counters.submitted + 1);
    }

    method Submit(r: Request, ids: seq<nat>, now: nat) returns (status: Status, id: nat)
      requires Valid()
      modifies this, Nodes()
      ensures Valid() && (status, id, Abs()) == Core.Submit(old(Abs()), r, ids, now)
    {
      hide Linked, Core.Append, Core.Purge, CancelFrom, Core.ChooseId, Count;
      if r.lane >= LANES { return InvalidArgument, 0; }
      if shuttingDown { return Cancelled, 0; }
      Purge(now);
      if config.maxTotal > 0 && counters.total >= config.maxTotal { return QueueFull, 0; }
      if (r.action == Followup || r.action == Interrupt) && config.maxPending > 0 {
        var count := PendingCount(r.session);
        if count >= config.maxPending { return QueueFull, 0; }
      }
      var chosen := ChooseId(ids);
      if chosen.None? { return Platform, 0; }
      CancelMatching(Some(r.session), r.action != Followup, r.action == Steer || r.action == Interrupt, now);
      TailInSpine();
      Append(chosen.value, r);
      return Ok, chosen.value;
    }

    lemma TailInSpine()
      requires Valid()
      ensures tail == null || tail in spine
    {
    }

    method InterruptSession(key: string, now: nat)
      requires Valid()
      modifies this, Nodes(), table
      ensures Valid() && Abs() == Core.InterruptSession(old(Abs()), key, now)
    {
      hide CancelFrom;
      var s := FindSession(key);
      ghost var q := Abs();
      if s < sessionCount {
        table[s] := table[s].(generation := table[s].generation + 1);
        assert table[..sessionCount] == q.sessions[s := q.sessions[s].(generation := q.sessions[s].generation + 1)];
      }
      CancelMatching(Some(key), true, true, now);
    }

    method InterruptRun(id: nat, now: nat) returns (status: Status)
      requires Valid()
      modifies this, Nodes()
      ensures Valid() && (status, Abs()) == Core.InterruptRun(old(Abs()), id, now)
    {
      if id == 0 { return InvalidArgument; }
      var node, i := FindJob(id);
      if node == null { return Status.NotFound; }
      if node.job.state == Pending {
        CompletePending(node, i, now);
      } else if node.job.state == Running {
        CancelToken(node, i);
      }
      status := Ok;
    }

    method Abandon(id: nat, now: nat) returns (status: Status)
      requires Valid()
      modifies this, Nodes()
      ensures Valid() && (status, Abs()) == Core.Abandon(old(Abs()), id, now)
    {
      hide Remove, Linked, Core.FindJob;
      if id == 0 { return InvalidArgument; }
      var node, i := FindJob(id);
      if node == null { return Status.NotFound; }
      counters := counters.(abandoned := counters.abandoned + 1);
      if node.job.state == Running {
        SetJob(node, i, node.job.(abandoned := true));
        CancelToken(node, i);
      } else {
        SameFind(list, id, i);
        if node.job.state == Pending {
          CompletePending(node, i, now);
          SameFind(list, id, i);
        }
        var discard := TakeJob(id);
      }
      status := Ok;
    }

    /** One look of a collector; None means that it has to wait. */
    method CollectOnce(id: nat) returns (result: Option<Status>)
      requires Valid()
      modifies this, Nodes()
      ensures Valid() && (result, Abs()) == Core.CollectOnce(old(Abs()), id)
    {
      if id == 0 { return Some(InvalidArgument); }
      var node, i := FindJob(id);
      if node == null { return Some(Status.NotFound); }
      if node.job.state != Completed { return None; }
      node := TakeJob(id);
      result := Some(node.job.result);
    }

    method Shutdown(now: nat)
      requires Valid()
      modifies this, Nodes()
      ensures Valid() && Abs() == Core.Shutdown(old(Abs()), now)
    {
      if !shuttingDown {
        shuttingDown := true;
        CancelMatching(None, true, true, now);
      }
    }
  }

  lemma {:induction false} FindAppended(sessions: seq<Session>, x: Session, i: nat)
    requires i <= |sessions| && Core.FindSession(sessions, x.key, i) == |sessions|
    ensures Core.FindSession(sessions + [x], x.key, i) == |sessions|
    decreases |sessions| - i
  {
    if i < |sessions| { FindAppended(sessions, x, i + 1); }
  }

  /** The first job with an id is found again. */
  lemma SameFind(jobs: seq<Job>, id: nat, i: nat)
    requires i < |jobs| && jobs[i].id == id && forall k :: 0 <= k < i ==> jobs[k].id != id
    ensures Core.FindJob(jobs, id, 0) == i
  {
  }
}
