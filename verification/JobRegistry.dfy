/**
  The job registry (server/internal/jobs/registry.go): a table of jobs, a FIFO queue of job
  ids and running statistics, all guarded by one mutex.  Every method of the class is one
  critical section of the source; the functions above it say what the section computes.

  A status is a string in the source; the ones it knows have a constructor of their own and
  Other stands for every other string.  Times are integers of one clock, None the zero time.
*/
module JobRegistry {
  import opened Wrappers

  type Id = string

  datatype Status =
    | Queued | Claimed | AwaitingPayload | Running | AwaitingResult
    | Completed | Failed | Canceled
    | Other(name: string)

  datatype JobError = JobError(code: string, message: string)

  datatype Job = Job(
    kind: string, status: Status, workerId: string, workerGroup: string,
    claimedId: string, claimedGroup: string, error: Option<JobError>,
    payloads: map<string, string>, results: map<string, string>,
    createdAt: int, claimedAt: Option<int>, updatedAt: int)

  datatype Stats = Stats(
    completed: nat, failed: nat, canceled: nat,
    queueWaitTotal: int, queueWaitSamples: nat,
    serviceTotal: int, serviceSamples: nat,
    endToEndTotal: int, endToEndSamples: nat,
    lastCompletedAt: Option<int>, lastFailedAt: Option<int>, lastCanceledAt: Option<int>)

  datatype State = State(jobs: map<Id, Job>, queue: seq<Id>, stats: Stats)

  datatype ClaimRequest = ClaimRequest(kinds: seq<string>, workerId: string, workerGroup: string)

  function NoStats(): Stats {
    Stats(0, 0, 0, 0, 0, 0, 0, 0, 0, None, None, None)
  }

  predicate IsTerminal(s: Status) {
    s.Completed? || s.Failed? || s.Canceled?
  }

  predicate CanRequestTransfer(s: Status) {
    s.Claimed? || s.Running? || s.AwaitingPayload? || s.AwaitingResult?
  }

  /** A job may be pinned to a worker, to a group, or to both. */
  predicate Compatible(job: Job, req: ClaimRequest) {
    && (req.kinds != [] ==> job.kind in req.kinds)
    && (job.workerId != "" ==> job.workerId == req.workerId)
    && (job.workerGroup != "" ==> job.workerGroup == req.workerGroup)
  }

  // ---------------------------------------------------------------- status and statistics

  function RecordTerminal(st: Stats, job: Job, status: Status, now: int): Stats {
    if !IsTerminal(status) then st
    else
      var counted := match status
        case Completed => st.(completed := st.completed + 1, lastCompletedAt := Some(now))
        case Failed => st.(failed := st.failed + 1, lastFailedAt := Some(now))
        case _ => st.(canceled := st.canceled + 1, lastCanceledAt := Some(now));
      var ended :=
        if now >= job.createdAt
        then counted.(endToEndTotal := counted.endToEndTotal + (now - job.createdAt),
                      endToEndSamples := counted.endToEndSamples + 1)
        else counted;
      if job.claimedAt.Some? && now >= job.claimedAt.value then
        ended.(queueWaitTotal := ended.queueWaitTotal + (job.claimedAt.value - job.createdAt),
               queueWaitSamples := ended.queueWaitSamples + 1,
               serviceTotal := ended.serviceTotal + (now - job.claimedAt.value),
               serviceSamples := ended.serviceSamples + 1)
      else if status.Canceled? && now >= job.createdAt then
        ended.(queueWaitTotal := ended.queueWaitTotal + (now - job.createdAt),
               queueWaitSamples := ended.queueWaitSamples + 1)
      else ended
  }

  function WithStatus(job: Job, status: Status, now: int): Job {
    var claimed := if status.Claimed? && job.claimedAt.None? then job.(claimedAt := Some(now)) else job;
    claimed.(status := status, updatedAt := now)
  }

  /** The statistics see a job become terminal once per passage from non-terminal to terminal,
      and after its claim time has been set. */
  function SetStatus(s: State, id: Id, status: Status, now: int): State
    requires id in s.jobs
  {
    var job := s.jobs[id];
    var stats :=
      if !IsTerminal(job.status) && IsTerminal(status)
      then RecordTerminal(s.stats, WithStatus(job, status, now), status, now)
      else s.stats;
    State(s.jobs[id := WithStatus(job, status, now)], s.queue, stats)
  }

  // ---------------------------------------------------------------- the queue

  /** The position of the first element of queue[i..] that satisfies the request. */
  function FirstClaimable(jobs: map<Id, Job>, queue: seq<Id>, i: nat, req: ClaimRequest): (r: Option<nat>)
    requires i <= |queue|
    ensures r.Some? ==> i <= r.value < |queue| && queue[r.value] in jobs && Compatible(jobs[queue[r.value]], req)
    ensures r.Some? ==> forall j :: i <= j < r.value ==> !(queue[j] in jobs && Compatible(jobs[queue[j]], req))
    ensures r.None? ==> forall j :: i <= j < |queue| ==> !(queue[j] in jobs && Compatible(jobs[queue[j]], req))
    decreases |queue| - i
  {
    if i == |queue| then None
    else if queue[i] in jobs && Compatible(jobs[queue[i]], req) then Some(i)
    else FirstClaimable(jobs, queue, i + 1, req)
  }

  /** The queue without the first occurrence of id. */
  function Without(queue: seq<Id>, id: Id): seq<Id> {
    if queue == [] then []
    else if queue[0] == id then queue[1..]
    else [queue[0]] + Without(queue[1..], id)
  }

  lemma {:induction false} WithoutFirst(queue: seq<Id>, i: nat, id: Id)
    requires i < |queue| && queue[i] == id && id !in queue[..i]
    ensures Without(queue, id) == queue[..i] + queue[i + 1..]
  {
    if i > 0 {
      assert queue[0] == queue[..i][0];
      assert queue[1..][..i - 1] == queue[..i][1..];
      WithoutFirst(queue[1..], i - 1, id);
      assert queue[..i] + queue[i + 1..] == [queue[0]] + (queue[1..][..i - 1] + queue[1..][i..]);
    }
  }

  lemma {:induction false} WithoutAbsent(queue: seq<Id>, id: Id)
    requires id !in queue
    ensures Without(queue, id) == queue
  {
    if queue != [] { WithoutAbsent(queue[1..], id); }
  }

  function PositionOf(queue: seq<Id>, id: Id): nat {
    if queue == [] then 0
    else if queue[0] == id then 1
    else if PositionOf(queue[1..], id) == 0 then 0
    else 1 + PositionOf(queue[1..], id)
  }

  /** The position is that of the first occurrence, counted from 1, and 0 if there is none. */
  lemma {:induction false} PositionIsFirst(queue: seq<Id>, id: Id)
    ensures var p := PositionOf(queue, id);
      && (p == 0 <==> id !in queue)
      && (p > 0 ==> p <= |queue| && queue[p - 1] == id && id !in queue[..p - 1])
  {
    if queue != [] && queue[0] != id {
      PositionIsFirst(queue[1..], id);
      var p := PositionOf(queue[1..], id);
      if p > 0 { assert queue[..p] == [queue[0]] + queue[1..][..p - 1]; }
    }
  }

  // ---------------------------------------------------------------- the critical sections

  function Create(s: State, id: Id, kind: string, workerId: string, workerGroup: string, now: int): State {
    var job := Job(kind, Queued, workerId, workerGroup, "", "", None, map[], map[], now, None, now);
    State(s.jobs[id := job], s.queue + [id], s.stats)
  }

  function Claim(s: State, req: ClaimRequest, now: int): (State, Option<Id>) {
    match FirstClaimable(s.jobs, s.queue, 0, req)
    case None => (s, None)
    case Some(i) =>
      var id := s.queue[i];
      var t := SetStatus(s.(queue := s.queue[..i] + s.queue[i + 1..]), id, Claimed, now);
      (t.(jobs := t.jobs[id := t.jobs[id].(claimedId := req.workerId, claimedGroup := req.workerGroup)]), Some(id))
  }

  /** Cancel and expire share this; expiry also leaves an error on the job. */
  function Terminate(s: State, id: Id, error: Option<JobError>, now: int): State {
    if id !in s.jobs || IsTerminal(s.jobs[id].status) then s
    else
      var u := if s.jobs[id].status.Queued? then s.(queue := Without(s.queue, id)) else s;
      var t := SetStatus(u, id, Canceled, now);
      if error.Some? then t.(jobs := t.jobs[id := t.jobs[id].(error := error)]) else t
  }

  /** The second section of a status update checks again that the job is not terminal. */
  function Report(s: State, id: Id, status: Status, error: Option<JobError>, now: int): State {
    if id !in s.jobs || IsTerminal(s.jobs[id].status) then s
    else
      var t := SetStatus(s, id, status, now);
      if error.Some? then t.(jobs := t.jobs[id := t.jobs[id].(error := error)]) else t
  }

  /** The second section of a transfer request does not look at the status again. */
  function TransferReady(s: State, id: Id, payload: bool, key: string, channel: string, now: int): State {
    if id !in s.jobs then s
    else
      var job := s.jobs[id];
      var noted :=
        if payload then job.(payloads := job.payloads[key := channel])
        else job.(results := job.results[key := channel]);
      SetStatus(s.(jobs := s.jobs[id := noted]), id, if payload then AwaitingPayload else AwaitingResult, now)
  }

  /** The counting part of the state summary; ages are in whole seconds. */
  datatype Summary = Summary(
    total: nat, queued: nat, claimed: nat, running: nat, awaiting: nat, terminal: nat,
    oldestQueued: nat, oldestInflight: nat)

  function NoSummary(): Summary {
    Summary(0, 0, 0, 0, 0, 0, 0, 0)
  }

  /** Times are in nanoseconds; a time in the future has no age. */
  function Age(now: int, since: int): nat {
    if now < since then 0 else (now - since) / 1_000_000_000
  }

  /** A job in flight has aged since it was claimed, or else since its last change. */
  function InflightSince(job: Job): int {
    if job.claimedAt.Some? then job.claimedAt.value else job.updatedAt
  }

  function Max(a: nat, b: nat): nat {
    if b > a then b else a
  }

  function Tally(m: Summary, job: Job, now: int): Summary {
    var n := m.(total := m.total + 1);
    var inflight := Max(m.oldestInflight, Age(now, InflightSince(job)));
    match job.status
    case Queued => n.(queued := n.queued + 1, oldestQueued := Max(m.oldestQueued, Age(now, job.createdAt)))
    case Claimed => n.(claimed := n.claimed + 1, oldestInflight := inflight)
    case Running => n.(running := n.running + 1, oldestInflight := inflight)
    case AwaitingPayload => n.(awaiting := n.awaiting + 1, oldestInflight := inflight)
    case AwaitingResult => n.(awaiting := n.awaiting + 1, oldestInflight := inflight)
    case Completed => n.(terminal := n.terminal + 1)
    case Failed => n.(terminal := n.terminal + 1)
    case Canceled => n.(terminal := n.terminal + 1)
    case Other(_) => n
  }

  function TallyAll(jobs: map<Id, Job>, ids: seq<Id>, now: int): Summary
    requires forall i :: 0 <= i < |ids| ==> ids[i] in jobs
  {
    if ids == [] then NoSummary()
    else Tally(TallyAll(jobs, ids[..|ids| - 1], now), jobs[ids[|ids| - 1]], now)
  }

  // ---------------------------------------------------------------- the registry object

  class Registry {
    var jobs: map<Id, Job>
    var queue: seq<Id>
    var stats: Stats

    ghost function View(): State
      reads this
    {
      State(jobs, queue, stats)
    }

    constructor ()
      ensures View() == State(map[], [], NoStats())
    {
      jobs, queue, stats := map[], [], NoStats();
    }

    method RecordTerminalLocked(job: Job, status: Status, now: int)
      modifies this`stats
      ensures stats == RecordTerminal(old(stats), job, status, now)
    {
      match status {
        case Completed =>
          stats := stats.(completed := stats.completed + 1, lastCompletedAt := Some(now));
        case Failed =>
          stats := stats.(failed := stats.failed + 1, lastFailedAt := Some(now));
        case Canceled =>
          stats := stats.(canceled := stats.canceled + 1, lastCanceledAt := Some(now));
        case _ =>
          return;
      }
      if now >= job.createdAt {
        stats := stats.(endToEndTotal := stats.endToEndTotal + (now - job.createdAt),
                        endToEndSamples := stats.endToEndSamples + 1);
      }
      if job.claimedAt.Some? && now >= job.claimedAt.value {
        stats := stats.(queueWaitTotal := stats.queueWaitTotal + (job.claimedAt.value - job.createdAt),
                        queueWaitSamples := stats.queueWaitSamples + 1);
        stats := stats.(serviceTotal := stats.serviceTotal + (now - job.claimedAt.value),
                        serviceSamples := stats.serviceSamples + 1);
      } else if status == Canceled && now >= job.createdAt {
        stats := stats.(queueWaitTotal := stats.queueWaitTotal + (now - job.createdAt),
                        queueWaitSamples := stats.queueWaitSamples + 1);
      }
    }

    method SetJobStatusLocked(id: Id, status: Status, now: int)
      requires id in jobs
      modifies this`jobs, this`stats
      ensures View() == SetStatus(old(View()), id, status, now)
    {
      var prev := jobs[id].status;
      var job := jobs[id];
      if status == Claimed && job.claimedAt.None? {
        job := job.(claimedAt := Some(now));
      }
      job := job.(status := status, updatedAt := now);
      jobs := jobs[id := job];
      if !IsTerminal(prev) && IsTerminal(status) {
        RecordTerminalLocked(job, status, now);
      }
    }

    method RemoveFromQueue(id: Id)
      modifies this`queue
      ensures queue == Without(old(queue), id)
    {
      var i := 0;
      while i < |queue|
        invariant i <= |queue| && queue == old(queue)
        invariant id !in queue[..i]
      {
        if queue[i] == id {
          WithoutFirst(queue, i, id);
          queue := queue[..i] + queue[i + 1..];
          return;
        }
        i := i + 1;
      }
      WithoutAbsent(queue, id);
    }

    method CreateJob(id: Id, kind: string, workerId: string, workerGroup: string, now: int)
      modifies this
      ensures View() == Create(old(View()), id, kind, workerId, workerGroup, now)
    {
      jobs := jobs[id := Job(kind, Queued, workerId, workerGroup, "", "", None, map[], map[], now, None, now)];
      queue := queue + [id];
    }

    method ClaimNext(kinds: seq<string>, workerId: string, workerGroup: string, now: int) returns (claimed: Option<Id>)
      modifies this
      ensures (View(), claimed) == Claim(old(View()), ClaimRequest(kinds, workerId, workerGroup), now)
    {
      ghost var req := ClaimRequest(kinds, workerId, workerGroup);
      var i := 0;
      while i < |queue|
        invariant i <= |queue| && View() == old(View())
        invariant FirstClaimable(jobs, queue, 0, req) == FirstClaimable(jobs, queue, i, req)
      {
        var id := queue[i];
        if id in jobs {
          var job := jobs[id];
          if (kinds == [] || job.kind in kinds)
             && (job.workerId == "" || job.workerId == workerId)
             && (job.workerGroup == "" || job.workerGroup == workerGroup) {
            queue := queue[..i] + queue[i + 1..];
            SetJobStatusLocked(id, Claimed, now);
            jobs := jobs[id := jobs[id].(claimedId := workerId, claimedGroup := workerGroup)];
            return Some(id);
          }
        }
        i := i + 1;
      }
      claimed := None;
    }

    /** HandleCancelJob, and expireJobIfIdle once it has found its timer and no subscriber. */
    method CancelJob(id: Id, error: Option<JobError>, now: int) returns (found: bool)
      modifies this
      ensures found == (id in old(jobs))
      ensures View() == Terminate(old(View()), id, error, now)
    {
      if id !in jobs {
        return false;
      }
      if !IsTerminal(jobs[id].status) {
        if jobs[id].status == Queued {
          RemoveFromQueue(id);
        }
        SetJobStatusLocked(id, Canceled, now);
        if error.Some? {
          jobs := jobs[id := jobs[id].(error := error)];
        }
      }
      found := true;
    }

    /** The second section of HandleStatusUpdate; false is the conflict response. */
    method ApplyReport(id: Id, status: Status, error: Option<JobError>, now: int) returns (accepted: bool)
      requires id in jobs
      modifies this
      ensures accepted == !IsTerminal(old(jobs)[id].status)
      ensures View() == Report(old(View()), id, status, error, now)
    {
      if IsTerminal(jobs[id].status) {
        return false;
      }
      SetJobStatusLocked(id, status, now);
      if error.Some? {
        jobs := jobs[id := jobs[id].(error := error)];
      }
      accepted := true;
    }

    /** The second section of HandlePayloadRequest (payload) and HandleResultRequest. */
    method ApplyTransfer(id: Id, payload: bool, key: string, channel: string, now: int)
      requires id in jobs
      modifies this
      ensures View() == TransferReady(old(View()), id, payload, key, channel, now)
    {
      var job := jobs[id];
      if payload {
        jobs := jobs[id := job.(payloads := job.payloads[key := channel])];
        SetJobStatusLocked(id, AwaitingPayload, now);
      } else {
        jobs := jobs[id := job.(results := job.results[key := channel])];
        SetJobStatusLocked(id, AwaitingResult, now);
      }
    }

    /** The queue position that a snapshot shows: 1-based, 0 for a job that is not queued. */
    method QueuePosition(id: Id) returns (pos: nat)
      requires id in jobs
      ensures pos == if jobs[id].status.Queued? then PositionOf(queue, id) else 0
    {
      pos := 0;
      if jobs[id].status == Queued {
        var i := 0;
        while i < |queue|
          invariant i <= |queue|
          invariant PositionOf(queue, id)
                 == if PositionOf(queue[i..], id) == 0 then 0 else i + PositionOf(queue[i..], id)
        {
          assert queue[i..][0] == queue[i] && queue[i..][1..] == queue[i + 1..];
          if queue[i] == id {
            return i + 1;
          }
          i := i + 1;
        }
      }
    }

    /** The counting loop of StateSnapshot, over the job ids in any order. */
    method CountJobs(ids: seq<Id>, now: int) returns (summary: Summary)
      requires forall i :: 0 <= i < |ids| ==> ids[i] in jobs
      ensures summary == TallyAll(jobs, ids, now)
    {
      summary := NoSummary();
      for i := 0 to |ids|
        invariant summary == TallyAll(jobs, ids[..i], now)
      {
        var job := jobs[ids[i]];
        summary := CountJob(summary, job, now);
        assert ids[..i + 1][..i] == ids[..i];
      }
      assert ids[..|ids|] == ids;
    }
  }

  /** The body of that loop. */
  method CountJob(before: Summary, job: Job, now: int) returns (summary: Summary)
    ensures summary == Tally(before, job, now)
  {
    summary := before.(total := before.total + 1);
    match job.status {
      case Queued =>
        summary := summary.(queued := summary.queued + 1);
        var age := Age(now, job.createdAt);
        if age > summary.oldestQueued {
          summary := summary.(oldestQueued := age);
        }
      case Claimed =>
        summary := summary.(claimed := summary.claimed + 1);
        summary := NoteInflight(summary, job, now);
      case Running =>
        summary := summary.(running := summary.running + 1);
        summary := NoteInflight(summary, job, now);
      case AwaitingPayload =>
        summary := summary.(awaiting := summary.awaiting + 1);
        summary := NoteInflight(summary, job, now);
      case AwaitingResult =>
        summary := summary.(awaiting := summary.awaiting + 1);
        summary := NoteInflight(summary, job, now);
      case Completed => summary := summary.(terminal := summary.terminal + 1);
      case Failed => summary := summary.(terminal := summary.terminal + 1);
      case Canceled => summary := summary.(terminal := summary.terminal + 1);
      case Other(_) =>
    }
  }

  method NoteInflight(before: Summary, job: Job, now: int) returns (summary: Summary)
    ensures summary == before.(oldestInflight := Max(before.oldestInflight, Age(now, InflightSince(job))))
  {
    summary := before;
    var age := Age(now, InflightSince(job));
    if age > summary.oldestInflight {
      summary := summary.(oldestInflight := age);
    }
  }
}
