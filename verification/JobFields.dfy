/**
  What the events of a run make of the fields of a job (server/internal/jobs/registry.go): who
  created it, who may claim it, who did, and when.
*/
module JobFields {
  import opened Wrappers
  import R = JobRegistry
  import J = JobRuns

  // ---------------------------------------------------------------- who may claim

  /** The request lists no kinds, or the job's. */
  predicate KindListed(job: R.Job, req: R.ClaimRequest) {
    req.kinds == [] || exists i :: 0 <= i < |req.kinds| && req.kinds[i] == job.kind
  }

  /** The job names no worker, or the one that asks. */
  predicate ForWorker(job: R.Job, req: R.ClaimRequest) {
    job.workerId == "" || job.workerId == req.workerId
  }

  /** The job names no group, or the one that asks. */
  predicate ForGroup(job: R.Job, req: R.ClaimRequest) {
    job.workerGroup == "" || job.workerGroup == req.workerGroup
  }

  lemma FitsOnFields(job: R.Job, req: R.ClaimRequest)
    ensures R.Compatible(job, req) <==> KindListed(job, req) && ForWorker(job, req) && ForGroup(job, req)
  {
    if exists i :: 0 <= i < |req.kinds| && req.kinds[i] == job.kind {
      assert job.kind in req.kinds;
    }
  }

  /** In every run: a claim hands out a job of a kind that the request lists, if it lists any, and
      one that is not meant for another worker or group; when it hands out nothing, each queued
      job differs from the request in one of the three. */
  lemma {:induction false} ClaimFits(clock: int, es: seq<J.Event>, req: R.ClaimRequest, now: int)
    requires J.Valid(J.Init(clock), es)
    ensures var reg := J.After(J.Init(clock), es).reg;
            var claimed := R.Claim(reg, req, now).1;
      && (forall id :: id in reg.queue ==> id in reg.jobs)
      && (claimed.Some? ==>
            && claimed.value in reg.queue && claimed.value in reg.jobs
            && var job := reg.jobs[claimed.value]; KindListed(job, req) && ForWorker(job, req) && ForGroup(job, req))
      && (claimed.None? ==> forall id :: id in reg.queue ==>
            var job := reg.jobs[id]; !KindListed(job, req) || !ForWorker(job, req) || !ForGroup(job, req))
  {
    var s := J.After(J.Init(clock), es);
    J.InitBase(clock);
    J.RunKeepsBase(J.Init(clock), es);
    J.QueueFacts(s);
    J.ClaimIsFifo(s, req, now);
    forall id | id in s.reg.jobs
      ensures R.Compatible(s.reg.jobs[id], req)
         <==> KindListed(s.reg.jobs[id], req) && ForWorker(s.reg.jobs[id], req) && ForGroup(s.reg.jobs[id], req)
    {
      FitsOnFields(s.reg.jobs[id], req);
    }
  }

  // ---------------------------------------------------------------- one step

  predicate SameOrigin(j: R.Job, j': R.Job) {
    j'.kind == j.kind && j'.workerId == j.workerId && j'.workerGroup == j.workerGroup && j'.createdAt == j.createdAt
  }

  predicate SameClaimer(j: R.Job, j': R.Job) {
    j'.claimedId == j.claimedId && j'.claimedGroup == j.claimedGroup
  }

  predicate SameFiles(j: R.Job, j': R.Job) {
    j'.payloads == j.payloads && j'.results == j.results
  }

  /** The job gets that status now; its claim time is set by the first status `claimed`. */
  predicate Gets(j: R.Job, j': R.Job, status: R.Status, now: int) {
    && j'.status == status && j'.updatedAt == now
    && j'.claimedAt == if status.Claimed? && j.claimedAt.None? then Some(now) else j.claimedAt
  }

  predicate Live(s: J.System, id: R.Id) {
    id in s.reg.jobs && !R.IsTerminal(s.reg.jobs[id].status)
  }

  /** The step gives job id a new status. */
  predicate Touches(s: J.System, e: J.Event, id: R.Id) {
    match e
    case Create(x, _, _, _, _) => x == id
    case Claim(_, _) => J.HandsOut(s, e, id)
    case Cancel(x, _) => x == id && Live(s, id)
    case Expire(x, _) => x == id && Live(s, id)
    case FinishReport(x, _, _, _) => x == id && Live(s, id)
    case FinishTransfer(x, _, _, _, _) => x == id
    case _ => false
  }

  lemma OthersStay(s: J.System, e: J.Event, id: R.Id)
    requires J.Base(s) && J.Enabled(s, e) && id in s.reg.jobs && !Touches(s, e, id)
    ensures id in J.Next(s, e).reg.jobs && J.Next(s, e).reg.jobs[id] == s.reg.jobs[id]
  {
    match e {
      case Claim(req, now) => J.ClaimEffect(s, req, now);
      case Cancel(x, now) => J.TerminateEffect(s, x, None, now);
      case Expire(x, now) => J.TerminateEffect(s, x, Some(R.JobError("client_inactive", "client inactive")), now);
      case _ =>
    }
  }

  lemma Created(s: J.System, e: J.Event)
    requires J.Enabled(s, e) && e.Create?
    ensures var reg := J.Next(s, e).reg;
      && e.id in reg.jobs
      && var j := reg.jobs[e.id];
         && j.kind == e.kind && j.workerId == e.workerId && j.workerGroup == e.workerGroup
         && j.status.Queued? && j.createdAt == e.now && j.updatedAt == e.now && j.claimedAt.None?
         && j.claimedId == "" && j.claimedGroup == "" && j.error.None? && j.payloads == map[] && j.results == map[]
         && reg.queue == s.reg.queue + [e.id]
  {
  }

  /** What an event that gives the job a status makes of its fields. */
  predicate Becomes(e: J.Event, j: R.Job, j': R.Job) {
    && (!e.Claim? ==> SameClaimer(j, j'))
    && (!e.FinishTransfer? ==> SameFiles(j, j'))
    && match e
       case Claim(req, now) =>
         && Gets(j, j', R.Claimed, now) && j'.error == j.error
         && j'.claimedId == req.workerId && j'.claimedGroup == req.workerGroup
       case Cancel(_, now) => Gets(j, j', R.Canceled, now) && j'.error == j.error
       case Expire(_, now) =>
         Gets(j, j', R.Canceled, now) && j'.error == Some(R.JobError("client_inactive", "client inactive"))
       case FinishReport(_, status, error, now) =>
         Gets(j, j', status, now) && j'.error == if error.Some? then error else j.error
       case FinishTransfer(_, payload, key, channel, now) =>
         && Gets(j, j', if payload then R.AwaitingPayload else R.AwaitingResult, now) && j'.error == j.error
         && j'.payloads == (if payload then j.payloads[key := channel] else j.payloads)
         && j'.results == (if payload then j.results else j.results[key := channel])
       case _ => false
  }

  lemma HandedOut(s: J.System, e: J.Event, id: R.Id)
    requires J.Base(s) && J.Enabled(s, e) && J.HandsOut(s, e, id)
    ensures id in s.reg.jobs && id in J.Next(s, e).reg.jobs
    ensures var j, j' := s.reg.jobs[id], J.Next(s, e).reg.jobs[id]; SameOrigin(j, j') && Becomes(e, j, j')
  {
  }

  lemma Terminated(s: J.System, e: J.Event)
    requires J.Enabled(s, e) && (e.Cancel? || e.Expire?) && Live(s, e.id)
    ensures e.id in J.Next(s, e).reg.jobs
    ensures var j, j' := s.reg.jobs[e.id], J.Next(s, e).reg.jobs[e.id]; SameOrigin(j, j') && Becomes(e, j, j')
  {
  }

  lemma Reported(s: J.System, e: J.Event)
    requires J.Enabled(s, e) && e.FinishReport? && Live(s, e.id)
    ensures e.id in J.Next(s, e).reg.jobs
    ensures var j, j' := s.reg.jobs[e.id], J.Next(s, e).reg.jobs[e.id]; SameOrigin(j, j') && Becomes(e, j, j')
  {
  }

  lemma TransferOpened(s: J.System, e: J.Event)
    requires J.Enabled(s, e) && e.FinishTransfer? && e.id in s.reg.jobs
    ensures e.id in J.Next(s, e).reg.jobs
    ensures var j, j' := s.reg.jobs[e.id], J.Next(s, e).reg.jobs[e.id]; SameOrigin(j, j') && Becomes(e, j, j')
  {
  }

  /** A transfer request is let in for a job that is known, neither queued nor terminal, and in a
      status that the source knows. */
  lemma {:induction false} TransferBeginsIff(s: J.System, id: R.Id, payload: bool)
    ensures J.Enabled(s, J.BeginTransfer(id, payload)) <==>
      Live(s, id) && !s.reg.jobs[id].status.Queued? && !s.reg.jobs[id].status.Other?
  {
  }

  /** A report is let in for a job that is known and has not completed, failed or been canceled. */
  lemma {:induction false} ReportBeginsIff(s: J.System, id: R.Id)
    ensures J.Enabled(s, J.BeginReport(id)) <==>
      id in s.reg.jobs && s.reg.jobs[id].status !in [R.Completed, R.Failed, R.Canceled]
  {
    var ended := [R.Completed, R.Failed, R.Canceled];
    assert ended[0] in ended && ended[1] in ended && ended[2] in ended;
  }

  ghost predicate StepTells(s: J.System, e: J.Event, id: R.Id)
    requires J.Enabled(s, e) && id in s.reg.jobs
  {
    && id in J.Next(s, e).reg.jobs
    && var j, j' := s.reg.jobs[id], J.Next(s, e).reg.jobs[id];
       SameOrigin(j, j') && if Touches(s, e, id) then Becomes(e, j, j') else j' == j
  }

  lemma StepOnFields(s: J.System, e: J.Event, id: R.Id)
    requires J.Base(s) && J.Enabled(s, e) && id in s.reg.jobs
    ensures StepTells(s, e, id)
  {
    if !Touches(s, e, id) {
      OthersStay(s, e, id);
    } else {
      match e {
        case Claim(_, _) => HandedOut(s, e, id);
        case Cancel(_, _) => Terminated(s, e);
        case Expire(_, _) => Terminated(s, e);
        case FinishReport(_, _, _, _) => Reported(s, e);
        case FinishTransfer(_, _, _, _, _) => TransferOpened(s, e);
        case _ =>
      }
    }
  }

  /** In every run: what each step makes of each job, field by field. */
  lemma {:induction false} FieldsAfterStep(clock: int, es: seq<J.Event>, e: J.Event, id: R.Id)
    requires J.Valid(J.Init(clock), es) && J.Enabled(J.After(J.Init(clock), es), e)
    requires id in J.After(J.Init(clock), es).reg.jobs
    ensures StepTells(J.After(J.Init(clock), es), e, id)
  {
    J.InitBase(clock);
    J.RunKeepsBase(J.Init(clock), es);
    StepOnFields(J.After(J.Init(clock), es), e, id);
  }

  // ---------------------------------------------------------------- every run

  /** The event that created the job: an id is given out once. */
  function Creation(es: seq<J.Event>, id: R.Id): Option<J.Event> {
    if es == [] then None
    else if es[0].Create? && es[0].id == id then Some(es[0])
    else Creation(es[1..], id)
  }

  predicate CreatedBy(j: R.Job, e: J.Event) {
    e.Create? && j.kind == e.kind && j.workerId == e.workerId && j.workerGroup == e.workerGroup && j.createdAt == e.now
  }

  lemma {:induction false} OriginStays(s: J.System, es: seq<J.Event>, id: R.Id)
    requires J.Valid(s, es) && J.Base(s) && id in s.reg.jobs
    ensures id in J.After(s, es).reg.jobs && SameOrigin(s.reg.jobs[id], J.After(s, es).reg.jobs[id])
    decreases |es|
  {
    if es != [] {
      StepOnFields(s, es[0], id);
      J.StepKeepsBase(s, es[0]);
      OriginStays(J.Next(s, es[0]), es[1..], id);
    }
  }

  lemma NothingAppears(s: J.System, e: J.Event, id: R.Id)
    requires J.Base(s) && J.Enabled(s, e) && id !in s.reg.jobs && !(e.Create? && e.id == id)
    ensures id !in J.Next(s, e).reg.jobs
  {
    match e {
      case Claim(req, now) => J.ClaimEffect(s, req, now);
      case Cancel(x, now) => J.TerminateEffect(s, x, None, now);
      case Expire(x, now) => J.TerminateEffect(s, x, Some(R.JobError("client_inactive", "client inactive")), now);
      case FinishReport(x, _, _, _) => assert J.Reporting(x) in s.pending;
      case FinishTransfer(x, payload, _, _, _) => assert J.Transferring(x, payload) in s.pending;
      case _ =>
    }
  }

  lemma {:induction false} OriginFrom(s: J.System, es: seq<J.Event>, id: R.Id)
    requires J.Valid(s, es) && J.Base(s) && id !in s.reg.jobs
    ensures id in J.After(s, es).reg.jobs <==> Creation(es, id).Some?
    ensures Creation(es, id).Some? ==> CreatedBy(J.After(s, es).reg.jobs[id], Creation(es, id).value)
    decreases |es|
  {
    if es != [] {
      var s' := J.Next(s, es[0]);
      J.StepKeepsBase(s, es[0]);
      if es[0].Create? && es[0].id == id {
        Created(s, es[0]);
        OriginStays(s', es[1..], id);
      } else {
        NothingAppears(s, es[0], id);
        OriginFrom(s', es[1..], id);
      }
    }
  }

  /** The jobs are those that were created, each with the kind, worker and group, and the time,
      that its creation gave it. */
  lemma {:induction false} OriginInEveryRun(clock: int, es: seq<J.Event>, id: R.Id)
    requires J.Valid(J.Init(clock), es)
    ensures var jobs := J.After(J.Init(clock), es).reg.jobs;
      && (id in jobs <==> Creation(es, id).Some?)
      && (id in jobs ==> CreatedBy(jobs[id], Creation(es, id).value))
  {
    J.InitBase(clock);
    OriginFrom(J.Init(clock), es, id);
  }

  /** The claim that handed the job out: there is one at most. */
  function Handing(s: J.System, es: seq<J.Event>, id: R.Id): Option<J.Event>
    requires J.Valid(s, es)
    decreases |es|
  {
    if es == [] then None
    else if J.HandsOut(s, es[0], id) then Some(es[0])
    else Handing(J.Next(s, es[0]), es[1..], id)
  }

  /** A job that was handed out names nobody else. */
  predicate ForClaimer(j: R.Job) {
    && (j.workerId != "" ==> j.workerId == j.claimedId)
    && (j.workerGroup != "" ==> j.workerGroup == j.claimedGroup)
  }

  ghost predicate ClaimedBy(j: R.Job, e: J.Event) {
    && e.Claim? && j.claimedId == e.req.workerId && j.claimedGroup == e.req.workerGroup
    && KindListed(j, e.req) && ForClaimer(j)
  }

  lemma HandedFits(s: J.System, e: J.Event, id: R.Id)
    requires J.Base(s) && J.Enabled(s, e) && J.HandsOut(s, e, id)
    ensures id in J.Next(s, e).reg.jobs && ClaimedBy(J.Next(s, e).reg.jobs[id], e)
    ensures id in J.Next(s, e).handed
  {
    HandedOut(s, e, id);
    J.ClaimIsFifo(s, e.req, e.now);
    FitsOnFields(s.reg.jobs[id], e.req);
  }

  lemma {:induction false} ClaimerStays(s: J.System, es: seq<J.Event>, id: R.Id, claim: J.Event)
    requires J.Valid(s, es) && J.Base(s) && id in s.reg.jobs && id in s.handed && ClaimedBy(s.reg.jobs[id], claim)
    ensures id in J.After(s, es).reg.jobs && id in J.After(s, es).handed
    ensures ClaimedBy(J.After(s, es).reg.jobs[id], claim)
    decreases |es|
  {
    if es != [] {
      assert !J.HandsOut(s, es[0], id) by { NotHandedAgain(s, es[0], id); }
      StepOnFields(s, es[0], id);
      J.StepKeepsBase(s, es[0]);
      ClaimerStays(J.Next(s, es[0]), es[1..], id, claim);
    }
  }

  lemma NotHandedAgain(s: J.System, e: J.Event, id: R.Id)
    requires J.Base(s) && J.Enabled(s, e) && id in s.handed
    ensures !J.HandsOut(s, e, id)
  {
    if e.Claim? { J.ClaimEffect(s, e.req, e.now); }
  }

  lemma {:induction false} ClaimerFrom(s: J.System, es: seq<J.Event>, id: R.Id)
    requires J.Valid(s, es) && J.Base(s) && id !in s.handed
    ensures id in J.After(s, es).handed <==> Handing(s, es, id).Some?
    ensures Handing(s, es, id).Some? ==>
      id in J.After(s, es).reg.jobs && ClaimedBy(J.After(s, es).reg.jobs[id], Handing(s, es, id).value)
    decreases |es|
  {
    if es != [] {
      var s' := J.Next(s, es[0]);
      J.StepKeepsBase(s, es[0]);
      if J.HandsOut(s, es[0], id) {
        HandedFits(s, es[0], id);
        ClaimerStays(s', es[1..], id, es[0]);
      } else {
        ClaimerFrom(s', es[1..], id);
      }
    }
  }

  /** A job that was handed out carries the worker and group of the claim that got it, is of a
      kind that the claim lists, and if it names a worker or a group these are the claimer's. */
  lemma {:induction false} ClaimerInEveryRun(clock: int, es: seq<J.Event>, id: R.Id)
    requires J.Valid(J.Init(clock), es)
    ensures var s := J.After(J.Init(clock), es);
            var claim := Handing(J.Init(clock), es, id);
      && (id in s.handed <==> claim.Some?)
      && (id in s.handed ==> id in s.reg.jobs && ClaimedBy(s.reg.jobs[id], claim.value))
  {
    J.InitBase(clock);
    ClaimerFrom(J.Init(clock), es, id);
  }

  /** When the job first got the status claimed, from a claim or a report. */
  function FirstClaimed(s: J.System, es: seq<J.Event>, id: R.Id): Option<int>
    requires J.Valid(s, es)
    decreases |es|
  {
    if es == [] then None
    else if J.HandsOut(s, es[0], id) then Some(es[0].now)
    else if es[0].FinishReport? && es[0].id == id && es[0].status.Claimed? && Live(s, id) then Some(es[0].now)
    else FirstClaimed(J.Next(s, es[0]), es[1..], id)
  }

  lemma {:induction false} ClaimTimeFrom(s: J.System, es: seq<J.Event>, id: R.Id)
    requires J.Valid(s, es) && J.Base(s) && id in s.reg.jobs
    ensures id in J.After(s, es).reg.jobs
    ensures var at := s.reg.jobs[id].claimedAt;
      J.After(s, es).reg.jobs[id].claimedAt == if at.Some? then at else FirstClaimed(s, es, id)
    decreases |es|
  {
    if es != [] {
      StepOnFields(s, es[0], id);
      J.StepKeepsBase(s, es[0]);
      ClaimTimeFrom(J.Next(s, es[0]), es[1..], id);
    }
  }

  lemma {:induction false} ClaimTimeOfNew(s: J.System, es: seq<J.Event>, id: R.Id)
    requires J.Valid(s, es) && J.Base(s) && id !in s.reg.jobs
    ensures id in J.After(s, es).reg.jobs ==> J.After(s, es).reg.jobs[id].claimedAt == FirstClaimed(s, es, id)
    decreases |es|
  {
    if es != [] {
      var s' := J.Next(s, es[0]);
      J.StepKeepsBase(s, es[0]);
      assert !J.HandsOut(s, es[0], id) by { if es[0].Claim? { J.ClaimEffect(s, es[0].req, es[0].now); } }
      if es[0].Create? && es[0].id == id {
        Created(s, es[0]);
        ClaimTimeFrom(s', es[1..], id);
      } else {
        NothingAppears(s, es[0], id);
        ClaimTimeOfNew(s', es[1..], id);
      }
    }
  }

  /** The claim time of a job is the time of the first step that made it claimed. */
  lemma {:induction false} ClaimTimeInEveryRun(clock: int, es: seq<J.Event>, id: R.Id)
    requires J.Valid(J.Init(clock), es) && id in J.After(J.Init(clock), es).reg.jobs
    ensures J.After(J.Init(clock), es).reg.jobs[id].claimedAt == FirstClaimed(J.Init(clock), es, id)
  {
    J.InitBase(clock);
    ClaimTimeOfNew(J.Init(clock), es, id);
  }
}
