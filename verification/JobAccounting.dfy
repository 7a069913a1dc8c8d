/**
  Conservation in the registry's statistics (server/internal/jobs/registry.go).

  Time is split without loss between waiting and service: end-to-end time is queue wait plus
  service time, in the totals and in the samples.  The terminal counters are the numbers of
  jobs in the terminal statuses, and the summary of a snapshot shows their sum.

  Each half is proved of every run, together with the exact condition: the samples are apart
  by the number of jobs that completed or failed unclaimed, and the counters by the number of
  steps that took a job out of a terminal status.
*/
module JobAccounting {
  import opened Wrappers
  import opened Sequences
  import R = JobRegistry
  import J = JobRuns

  type Jobs = map<R.Id, R.Job>

  // ---------------------------------------------------------------- one terminal transition

  predicate Balanced(st: R.Stats) {
    st.endToEndTotal == st.queueWaitTotal + st.serviceTotal && st.endToEndSamples == st.queueWaitSamples
  }

  predicate TimesInOrder(job: R.Job, now: int) {
    job.createdAt <= now && (job.claimedAt.Some? ==> job.createdAt <= job.claimedAt.value <= now)
  }

  function SampleGap(st: R.Stats): int {
    st.endToEndSamples - st.queueWaitSamples
  }

  function TimeGap(st: R.Stats): int {
    st.endToEndTotal - st.queueWaitTotal - st.serviceTotal
  }

  /** A job that was never claimed completes or fails. */
  predicate EndsUnclaimed(job: R.Job, status: R.Status) {
    (status.Completed? || status.Failed?) && job.claimedAt.None?
  }

  /** Exactly an unclaimed ending opens a gap between the samples; nothing else moves a gap. */
  predicate GapMoves(st: R.Stats, st': R.Stats, unclaimed: bool) {
    && SampleGap(st') == SampleGap(st) + (if unclaimed then 1 else 0)
    && (!unclaimed ==> TimeGap(st') == TimeGap(st))
  }

  lemma RecordMovesGap(st: R.Stats, job: R.Job, status: R.Status, now: int)
    requires TimesInOrder(job, now)
    ensures GapMoves(st, R.RecordTerminal(st, job, status, now), EndsUnclaimed(job, status))
  {
  }

  /** The exact condition for one terminal transition: the samples stay balanced if and only if
      the job had been claimed or was canceled; then the totals stay balanced too. */
  lemma {:induction false} RecordKeepsBalanceIff(st: R.Stats, job: R.Job, status: R.Status, now: int)
    requires R.IsTerminal(status) && TimesInOrder(job, now) && Balanced(st)
    ensures var st' := R.RecordTerminal(st, job, status, now);
      && (st'.endToEndSamples == st'.queueWaitSamples <==> job.claimedAt.Some? || status.Canceled?)
      && (Balanced(st') <==> job.claimedAt.Some? || status.Canceled?)
  {
    RecordMovesGap(st, job, status, now);
  }

  // ---------------------------------------------------------------- counting jobs

  function In(jobs: Jobs, status: R.Status): set<R.Id> {
    set id | id in jobs && jobs[id].status == status
  }

  ghost predicate Counted(s: R.State) {
    && s.stats.completed == |In(s.jobs, R.Completed)|
    && s.stats.failed == |In(s.jobs, R.Failed)|
    && s.stats.canceled == |In(s.jobs, R.Canceled)|
  }

  /** How far the counters are ahead of the jobs they count. */
  function CountGap(s: R.State): int {
    s.stats.completed - |In(s.jobs, R.Completed)|
    + s.stats.failed - |In(s.jobs, R.Failed)|
    + s.stats.canceled - |In(s.jobs, R.Canceled)|
  }

  /** jobs' differs from jobs in job id alone, which may be new. */
  ghost predicate ChangesAt(jobs: Jobs, jobs': Jobs, id: R.Id) {
    && (forall x :: x in jobs' <==> x in jobs || x == id)
    && (forall x :: x in jobs && x != id ==> jobs'[x] == jobs[x])
  }

  predicate WasTerminal(jobs: Jobs, id: R.Id) {
    id in jobs && R.IsTerminal(jobs[id].status)
  }

  lemma SetGrows(jobs: Jobs, jobs': Jobs, id: R.Id, status: R.Status)
    requires ChangesAt(jobs, jobs', id) && !WasTerminal(jobs, id) && R.IsTerminal(status)
    ensures id !in In(jobs, status)
    ensures In(jobs', status) == In(jobs, status) + (if jobs'[id].status == status then {id} else {})
  {
    assert forall x :: x != id ==> (x in In(jobs', status) <==> x in In(jobs, status));
  }

  lemma CountGrows(jobs: Jobs, jobs': Jobs, id: R.Id, status: R.Status)
    requires ChangesAt(jobs, jobs', id) && !WasTerminal(jobs, id) && R.IsTerminal(status)
    ensures |In(jobs', status)| == |In(jobs, status)| + (if jobs'[id].status == status then 1 else 0)
  {
    SetGrows(jobs, jobs', id, status);
    if jobs'[id].status != status {
      assert In(jobs, status) + {} == In(jobs, status);
    }
  }

  lemma SetShrinks(jobs: Jobs, jobs': Jobs, id: R.Id, status: R.Status)
    requires ChangesAt(jobs, jobs', id) && WasTerminal(jobs, id)
    requires R.IsTerminal(status) && !R.IsTerminal(jobs'[id].status)
    ensures In(jobs', status) == In(jobs, status) - {id}
  {
    assert forall x :: x != id ==> (x in In(jobs', status) <==> x in In(jobs, status));
  }

  lemma CountShrinks(jobs: Jobs, jobs': Jobs, id: R.Id, status: R.Status)
    requires ChangesAt(jobs, jobs', id) && WasTerminal(jobs, id)
    requires R.IsTerminal(status) && !R.IsTerminal(jobs'[id].status)
    ensures |In(jobs', status)| == |In(jobs, status)| - (if jobs[id].status == status then 1 else 0)
  {
    SetShrinks(jobs, jobs', id, status);
    if jobs[id].status == status {
      assert id in In(jobs, status);
    } else {
      assert In(jobs, status) - {id} == In(jobs, status);
    }
  }

  /** The counters of the statistics move with the status of the one job that changes. */
  predicate CountersFollow(st: R.Stats, st': R.Stats, status: R.Status) {
    && st'.completed == st.completed + (if status.Completed? then 1 else 0)
    && st'.failed == st.failed + (if status.Failed? then 1 else 0)
    && st'.canceled == st.canceled + (if status.Canceled? then 1 else 0)
  }

  // ---------------------------------------------------------------- what one step does

  /** Job id gets its status in reg'; the statistics see it if it was not terminal before. */
  ghost predicate SetsStatus(reg: R.State, reg': R.State, id: R.Id, now: int) {
    && ChangesAt(reg.jobs, reg'.jobs, id) && TimesInOrder(reg'.jobs[id], now)
    && (id in reg.jobs && reg.jobs[id].claimedAt.Some? ==> reg'.jobs[id].claimedAt.Some?)
    && (if WasTerminal(reg.jobs, id) then reg'.stats == reg.stats && !R.IsTerminal(reg'.jobs[id].status)
        else CountersFollow(reg.stats, reg'.stats, reg'.jobs[id].status))
    && GapMoves(reg.stats, reg'.stats, SetsUnclaimed(reg, reg', id))
  }

  predicate SetsUnclaimed(reg: R.State, reg': R.State, id: R.Id) {
    && id in reg.jobs && id in reg'.jobs && !WasTerminal(reg.jobs, id)
    && EndsUnclaimed(reg.jobs[id], reg'.jobs[id].status)
  }

  lemma SetStatusSets(s: R.State, id: R.Id, status: R.Status, now: int)
    requires id in s.jobs && TimesInOrder(s.jobs[id], now) && (WasTerminal(s.jobs, id) ==> !R.IsTerminal(status))
    ensures var s' := R.SetStatus(s, id, status, now);
      && SetsStatus(s, s', id, now) && s'.jobs[id].status == status
      && (status.Claimed? ==> s'.jobs[id].claimedAt.Some?)
  {
    RecordMovesGap(s.stats, R.WithStatus(s.jobs[id], status, now), status, now);
  }

  lemma CreateSets(reg: R.State, id: R.Id, kind: string, worker: string, group: string, now: int)
    requires id !in reg.jobs
    ensures SetsStatus(reg, R.Create(reg, id, kind, worker, group, now), id, now)
  {
  }

  lemma ClaimSets(reg: R.State, req: R.ClaimRequest, now: int, i: nat)
    requires R.FirstClaimable(reg.jobs, reg.queue, 0, req) == Some(i)
    requires i < |reg.queue| && reg.queue[i] in reg.jobs && TimesInOrder(reg.jobs[reg.queue[i]], now)
    ensures var (reg', claimed) := R.Claim(reg, req, now);
      && claimed == Some(reg.queue[i]) && SetsStatus(reg, reg', reg.queue[i], now)
      && reg'.jobs[reg.queue[i]].claimedAt.Some? && reg'.jobs[reg.queue[i]].status.Claimed?
  {
    SetStatusSets(reg.(queue := reg.queue[..i] + reg.queue[i + 1..]), reg.queue[i], R.Claimed, now);
  }

  lemma TerminateSets(reg: R.State, id: R.Id, error: Option<R.JobError>, now: int)
    requires id in reg.jobs && !WasTerminal(reg.jobs, id) && TimesInOrder(reg.jobs[id], now)
    ensures var reg' := R.Terminate(reg, id, error, now);
      SetsStatus(reg, reg', id, now) && reg'.jobs[id].status.Canceled?
  {
    var u := if reg.jobs[id].status.Queued? then reg.(queue := R.Without(reg.queue, id)) else reg;
    SetStatusSets(u, id, R.Canceled, now);
  }

  lemma ReportSets(reg: R.State, id: R.Id, status: R.Status, error: Option<R.JobError>, now: int)
    requires id in reg.jobs && !WasTerminal(reg.jobs, id) && TimesInOrder(reg.jobs[id], now)
    ensures var reg' := R.Report(reg, id, status, error, now);
      SetsStatus(reg, reg', id, now) && reg'.jobs[id].status == status
  {
    SetStatusSets(reg, id, status, now);
  }

  lemma TransferSets(reg: R.State, id: R.Id, payload: bool, key: string, channel: string, now: int)
    requires id in reg.jobs && TimesInOrder(reg.jobs[id], now)
    ensures var reg' := R.TransferReady(reg, id, payload, key, channel, now);
      SetsStatus(reg, reg', id, now) && !R.IsTerminal(reg'.jobs[id].status)
  {
    var job := reg.jobs[id];
    var noted :=
      if payload then job.(payloads := job.payloads[key := channel])
      else job.(results := job.results[key := channel]);
    var status := if payload then R.AwaitingPayload else R.AwaitingResult;
    SetStatusSets(reg.(jobs := reg.jobs[id := noted]), id, status, now);
  }

  // ---------------------------------------------------------------- one step of a run

  /** Every job's times are in order, and none lies ahead of the clock. */
  ghost predicate Timely(s: J.System) {
    forall id :: id in s.reg.jobs ==> TimesInOrder(s.reg.jobs[id], s.clock)
  }

  /** The step is a report that is accepted and ends a job that was never claimed. */
  predicate EndsOneUnclaimed(s: J.System, e: J.Event) {
    J.Accepted(s, e) && EndsUnclaimed(s.reg.jobs[e.id], e.status)
  }

  /** The step leaves the registry as it is, or sets the status of one job. */
  ghost predicate OneStatus(s: J.System, e: J.Event, s': J.System, id: Option<R.Id>) {
    && s.clock <= s'.clock
    && match id
       case None => s'.reg == s.reg && !EndsOneUnclaimed(s, e)
       case Some(x) =>
         SetsStatus(s.reg, s'.reg, x, s'.clock) && (EndsOneUnclaimed(s, e) <==> SetsUnclaimed(s.reg, s'.reg, x))
  }

  lemma ClaimStep(s: J.System, e: J.Event) returns (id: Option<R.Id>)
    requires J.Base(s) && Timely(s) && J.Enabled(s, e) && e.Claim?
    ensures OneStatus(s, e, J.Next(s, e), id)
  {
    var r := R.FirstClaimable(s.reg.jobs, s.reg.queue, 0, e.req);
    id := None;
    if r.Some? {
      id := Some(s.reg.queue[r.value]);
      assert TimesInOrder(s.reg.jobs[id.value], s.clock);
      ClaimSets(s.reg, e.req, e.now, r.value);
    }
  }

  lemma TerminateStep(s: J.System, e: J.Event, error: Option<R.JobError>) returns (id: Option<R.Id>)
    requires Timely(s) && J.Enabled(s, e) && (e.Cancel? || e.Expire?)
    requires J.Next(s, e).reg == R.Terminate(s.reg, e.id, error, e.now)
    ensures OneStatus(s, e, J.Next(s, e), id)
  {
    id := None;
    if !WasTerminal(s.reg.jobs, e.id) {
      id := Some(e.id);
      assert TimesInOrder(s.reg.jobs[e.id], s.clock);
      TerminateSets(s.reg, e.id, error, e.now);
    }
  }

  lemma ReportStep(s: J.System, e: J.Event) returns (id: Option<R.Id>)
    requires Timely(s) && J.Enabled(s, e) && e.FinishReport?
    ensures OneStatus(s, e, J.Next(s, e), id)
  {
    id := None;
    if J.Accepted(s, e) {
      id := Some(e.id);
      assert TimesInOrder(s.reg.jobs[e.id], s.clock);
      ReportSets(s.reg, e.id, e.status, e.error, e.now);
    }
  }

  lemma TransferStep(s: J.System, e: J.Event) returns (id: Option<R.Id>)
    requires Timely(s) && J.Enabled(s, e) && e.FinishTransfer?
    ensures OneStatus(s, e, J.Next(s, e), id)
  {
    id := None;
    if e.id in s.reg.jobs {
      id := Some(e.id);
      assert TimesInOrder(s.reg.jobs[e.id], s.clock);
      TransferSets(s.reg, e.id, e.payload, e.key, e.channel, e.now);
    }
  }

  lemma StepIsOneStatus(s: J.System, e: J.Event) returns (id: Option<R.Id>)
    requires J.Base(s) && Timely(s) && J.Enabled(s, e)
    ensures OneStatus(s, e, J.Next(s, e), id)
  {
    match e {
      case Create(x, kind, worker, group, now) =>
        id := Some(x);
        CreateSets(s.reg, x, kind, worker, group, now);
      case Claim(_, _) => id := ClaimStep(s, e);
      case Cancel(_, _) => id := TerminateStep(s, e, None);
      case Expire(_, _) => id := TerminateStep(s, e, Some(R.JobError("client_inactive", "client inactive")));
      case FinishReport(_, _, _, _) => id := ReportStep(s, e);
      case FinishTransfer(_, _, _, _, _) => id := TransferStep(s, e);
      case _ => id := None;
    }
  }

  lemma OneStatusIsTimely(s: J.System, e: J.Event, s': J.System, id: Option<R.Id>)
    requires Timely(s) && OneStatus(s, e, s', id)
    ensures Timely(s')
  {
    forall x | x in s'.reg.jobs ensures TimesInOrder(s'.reg.jobs[x], s'.clock) {
      if id != Some(x) { assert TimesInOrder(s.reg.jobs[x], s.clock); }
    }
  }

  lemma OneStatusMovesGap(s: J.System, e: J.Event, s': J.System, id: Option<R.Id>)
    requires OneStatus(s, e, s', id)
    ensures GapMoves(s.reg.stats, s'.reg.stats, EndsOneUnclaimed(s, e))
  {
  }

  /** No job is out of the terminal status in which it was. */
  predicate KeepsTerminal(jobs: Jobs, jobs': Jobs) {
    forall id :: id in jobs && R.IsTerminal(jobs[id].status) ==> id in jobs' && jobs'[id].status == jobs[id].status
  }

  lemma ArrivalCounts(reg: R.State, reg': R.State, id: R.Id, now: int)
    requires SetsStatus(reg, reg', id, now) && !WasTerminal(reg.jobs, id)
    ensures KeepsTerminal(reg.jobs, reg'.jobs) && CountGap(reg') == CountGap(reg) && (Counted(reg) ==> Counted(reg'))
  {
    CountGrows(reg.jobs, reg'.jobs, id, R.Completed);
    CountGrows(reg.jobs, reg'.jobs, id, R.Failed);
    CountGrows(reg.jobs, reg'.jobs, id, R.Canceled);
  }

  lemma DepartureCounts(reg: R.State, reg': R.State, id: R.Id, now: int)
    requires SetsStatus(reg, reg', id, now) && WasTerminal(reg.jobs, id)
    ensures !KeepsTerminal(reg.jobs, reg'.jobs) && CountGap(reg') == CountGap(reg) + 1
  {
    CountShrinks(reg.jobs, reg'.jobs, id, R.Completed);
    CountShrinks(reg.jobs, reg'.jobs, id, R.Failed);
    CountShrinks(reg.jobs, reg'.jobs, id, R.Canceled);
    assert reg'.jobs[id].status != reg.jobs[id].status;
  }

  lemma OneStatusCounts(s: J.System, e: J.Event, s': J.System, id: Option<R.Id>)
    requires OneStatus(s, e, s', id)
    ensures CountGap(s'.reg) == CountGap(s.reg) + (if KeepsTerminal(s.reg.jobs, s'.reg.jobs) then 0 else 1)
    ensures KeepsTerminal(s.reg.jobs, s'.reg.jobs) && Counted(s.reg) ==> Counted(s'.reg)
  {
    if id.Some? {
      if WasTerminal(s.reg.jobs, id.value) {
        DepartureCounts(s.reg, s'.reg, id.value, s'.clock);
      } else {
        ArrivalCounts(s.reg, s'.reg, id.value, s'.clock);
      }
    }
  }

  lemma AbsorbsMeans(s: J.System, e: J.Event)
    requires J.Enabled(s, e)
    ensures J.Absorbs(s, e) <==> KeepsTerminal(s.reg.jobs, J.Next(s, e).reg.jobs)
  {
  }

  /** The counters get ahead by one exactly at a step that leaves a terminal status. */
  lemma StepCounts(s: J.System, e: J.Event, id: Option<R.Id>)
    requires J.Enabled(s, e) && OneStatus(s, e, J.Next(s, e), id)
    ensures CountGap(J.Next(s, e).reg) == CountGap(s.reg) + (if J.Absorbs(s, e) then 0 else 1)
    ensures J.Absorbs(s, e) && Counted(s.reg) ==> Counted(J.Next(s, e).reg)
  {
    AbsorbsMeans(s, e);
    OneStatusCounts(s, e, J.Next(s, e), id);
  }

  // ---------------------------------------------------------------- every run

  /** How many jobs completed or failed unclaimed. */
  function UnclaimedEndings(s: J.System, es: seq<J.Event>): nat
    requires J.Valid(s, es)
    decreases |es|
  {
    if es == [] then 0 else (if EndsOneUnclaimed(s, es[0]) then 1 else 0) + UnclaimedEndings(J.Next(s, es[0]), es[1..])
  }

  /** How many steps took a job out of a terminal status. */
  function Departures(s: J.System, es: seq<J.Event>): nat
    requires J.Valid(s, es)
    decreases |es|
  {
    if es == [] then 0 else (if J.Absorbs(s, es[0]) then 0 else 1) + Departures(J.Next(s, es[0]), es[1..])
  }

  lemma {:induction false} RunMovesGaps(s: J.System, es: seq<J.Event>)
    requires J.Valid(s, es) && J.Base(s) && Timely(s)
    ensures var t := J.After(s, es);
      && SampleGap(t.reg.stats) == SampleGap(s.reg.stats) + UnclaimedEndings(s, es)
      && (UnclaimedEndings(s, es) == 0 ==> TimeGap(t.reg.stats) == TimeGap(s.reg.stats))
    decreases |es|
  {
    if es != [] {
      var id := StepIsOneStatus(s, es[0]);
      OneStatusMovesGap(s, es[0], J.Next(s, es[0]), id);
      OneStatusIsTimely(s, es[0], J.Next(s, es[0]), id);
      J.StepKeepsBase(s, es[0]);
      RunMovesGaps(J.Next(s, es[0]), es[1..]);
    }
  }

  lemma {:induction false} RunCounts(s: J.System, es: seq<J.Event>)
    requires J.Valid(s, es) && J.Base(s) && Timely(s)
    ensures var t := J.After(s, es);
      && CountGap(t.reg) == CountGap(s.reg) + Departures(s, es)
      && (Departures(s, es) == 0 && Counted(s.reg) ==> Counted(t.reg))
      && (Departures(s, es) == 0 <==> J.AbsorbsThroughout(s, es))
    decreases |es|
  {
    if es != [] {
      var id := StepIsOneStatus(s, es[0]);
      StepCounts(s, es[0], id);
      OneStatusIsTimely(s, es[0], J.Next(s, es[0]), id);
      J.StepKeepsBase(s, es[0]);
      RunCounts(J.Next(s, es[0]), es[1..]);
    }
  }

  lemma InitIsCounted(clock: int)
    ensures var s := J.Init(clock); J.Base(s) && Timely(s) && Counted(s.reg) && CountGap(s.reg) == 0
  {
    J.InitBase(clock);
    assert In(map[], R.Completed) == {} && In(map[], R.Failed) == {} && In(map[], R.Canceled) == {};
  }

  /** For every run, whatever is reported: the end-to-end samples are ahead of the queue-wait
      samples by the number of jobs that completed or failed unclaimed, and samples and totals
      are balanced if and only if there was none. */
  lemma {:induction false} BalancedIff(clock: int, es: seq<J.Event>)
    requires J.Valid(J.Init(clock), es)
    ensures var st := J.After(J.Init(clock), es).reg.stats;
            var unclaimed := UnclaimedEndings(J.Init(clock), es);
      && st.endToEndSamples == st.queueWaitSamples + unclaimed
      && (Balanced(st) <==> unclaimed == 0)
  {
    InitIsCounted(clock);
    RunMovesGaps(J.Init(clock), es);
  }

  /** For every run: the counters together are ahead of the jobs they count by the number of
      steps that took a job out of a terminal status; each counter is the number of jobs in its
      status if and only if terminal statuses were absorbing. */
  lemma {:induction false} CountedIff(clock: int, es: seq<J.Event>)
    requires J.Valid(J.Init(clock), es)
    ensures var reg := J.After(J.Init(clock), es).reg;
      && CountGap(reg) == Departures(J.Init(clock), es)
      && (Departures(J.Init(clock), es) == 0 <==> J.AbsorbsThroughout(J.Init(clock), es))
      && (Counted(reg) <==> J.AbsorbsThroughout(J.Init(clock), es))
  {
    InitIsCounted(clock);
    RunCounts(J.Init(clock), es);
  }

  // ---------------------------------------------------------------- statistics from the endings

  /** A job that became terminal: when it was created, claimed and ended, and how. */
  datatype Ending = Ending(createdAt: int, claimedAt: Option<int>, status: R.Status, at: int)

  function EndingBy(s: J.System, id: R.Id, status: R.Status, at: int): seq<Ending> {
    if id in s.reg.jobs && !R.IsTerminal(s.reg.jobs[id].status)
    then [Ending(s.reg.jobs[id].createdAt, s.reg.jobs[id].claimedAt, status, at)]
    else []
  }

  /** The job that the event makes terminal, if any. */
  function EndingOf(s: J.System, e: J.Event): seq<Ending> {
    match e
    case Cancel(id, now) => EndingBy(s, id, R.Canceled, now)
    case Expire(id, now) => EndingBy(s, id, R.Canceled, now)
    case FinishReport(id, status, _, now) =>
      if status.Completed? || status.Failed? || status.Canceled? then EndingBy(s, id, status, now) else []
    case _ => []
  }

  function Endings(s: J.System, es: seq<J.Event>): seq<Ending>
    requires J.Valid(s, es)
    decreases |es|
  {
    if es == [] then [] else EndingOf(s, es[0]) + Endings(J.Next(s, es[0]), es[1..])
  }

  /** From creation to the claim, or to the cancellation of a job that was never claimed. */
  function Wait(d: Ending): Option<int> {
    if d.claimedAt.Some? then Some(d.claimedAt.value - d.createdAt)
    else if d.status.Canceled? then Some(d.at - d.createdAt)
    else None
  }

  /** From the claim to the end. */
  function Service(d: Ending): Option<int> {
    if d.claimedAt.Some? then Some(d.at - d.claimedAt.value) else None
  }

  function Whole(d: Ending): Option<int> {
    Some(d.at - d.createdAt)
  }

  function SumOf(ds: seq<Ending>, f: Ending -> Option<int>): int {
    if ds == [] then 0 else (if f(ds[0]).Some? then f(ds[0]).value else 0) + SumOf(ds[1..], f)
  }

  function SamplesOf(ds: seq<Ending>, f: Ending -> Option<int>): nat {
    if ds == [] then 0 else (if f(ds[0]).Some? then 1 else 0) + SamplesOf(ds[1..], f)
  }

  function EndedIn(ds: seq<Ending>, status: R.Status): nat {
    if ds == [] then 0 else (if ds[0].status == status then 1 else 0) + EndedIn(ds[1..], status)
  }

  /** The end of the last job that ended in that status, or what there was before. */
  function LastEnd(ds: seq<Ending>, status: R.Status, before: Option<int>): Option<int> {
    if ds == [] then before
    else LastEnd(ds[1..], status, if ds[0].status == status then Some(ds[0].at) else before)
  }

  /** The statistics after more endings. */
  predicate Grown(st: R.Stats, st': R.Stats, ds: seq<Ending>) {
    && st'.completed == st.completed + EndedIn(ds, R.Completed)
    && st'.failed == st.failed + EndedIn(ds, R.Failed)
    && st'.canceled == st.canceled + EndedIn(ds, R.Canceled)
    && st'.queueWaitTotal == st.queueWaitTotal + SumOf(ds, Wait)
    && st'.queueWaitSamples == st.queueWaitSamples + SamplesOf(ds, Wait)
    && st'.serviceTotal == st.serviceTotal + SumOf(ds, Service)
    && st'.serviceSamples == st.serviceSamples + SamplesOf(ds, Service)
    && st'.endToEndTotal == st.endToEndTotal + SumOf(ds, Whole)
    && st'.endToEndSamples == st.endToEndSamples + SamplesOf(ds, Whole)
    && st'.lastCompletedAt == LastEnd(ds, R.Completed, st.lastCompletedAt)
    && st'.lastFailedAt == LastEnd(ds, R.Failed, st.lastFailedAt)
    && st'.lastCanceledAt == LastEnd(ds, R.Canceled, st.lastCanceledAt)
  }

  lemma SumsOfOne(d: Ending, f: Ending -> Option<int>)
    ensures SumOf([d], f) == if f(d).Some? then f(d).value else 0
    ensures SamplesOf([d], f) == if f(d).Some? then 1 else 0
  {
  }

  lemma CountsOfOne(d: Ending, status: R.Status, before: Option<int>)
    ensures EndedIn([d], status) == if d.status == status then 1 else 0
    ensures LastEnd([d], status, before) == if d.status == status then Some(d.at) else before
  {
  }

  lemma RecordGrows(st: R.Stats, job: R.Job, status: R.Status, now: int)
    requires R.IsTerminal(status) && TimesInOrder(job, now)
    ensures Grown(st, R.RecordTerminal(st, job, status, now), [Ending(job.createdAt, job.claimedAt, status, now)])
  {
    var d := Ending(job.createdAt, job.claimedAt, status, now);
    SumsOfOne(d, Wait);
    SumsOfOne(d, Service);
    SumsOfOne(d, Whole);
    CountsOfOne(d, R.Completed, st.lastCompletedAt);
    CountsOfOne(d, R.Failed, st.lastFailedAt);
    CountsOfOne(d, R.Canceled, st.lastCanceledAt);
  }

  lemma {:induction false} SumsConcat(xs: seq<Ending>, ys: seq<Ending>, f: Ending -> Option<int>)
    ensures SumOf(xs + ys, f) == SumOf(xs, f) + SumOf(ys, f)
    ensures SamplesOf(xs + ys, f) == SamplesOf(xs, f) + SamplesOf(ys, f)
  {
    if xs == [] {
      assert xs + ys == ys;
    } else {
      assert (xs + ys)[1..] == xs[1..] + ys;
      SumsConcat(xs[1..], ys, f);
    }
  }

  lemma {:induction false} CountsConcat(xs: seq<Ending>, ys: seq<Ending>, status: R.Status, before: Option<int>)
    ensures EndedIn(xs + ys, status) == EndedIn(xs, status) + EndedIn(ys, status)
    ensures LastEnd(xs + ys, status, before) == LastEnd(ys, status, LastEnd(xs, status, before))
  {
    if xs == [] {
      assert xs + ys == ys;
    } else {
      assert (xs + ys)[1..] == xs[1..] + ys;
      CountsConcat(xs[1..], ys, status, if xs[0].status == status then Some(xs[0].at) else before);
    }
  }

  lemma GrownConcat(a: R.Stats, b: R.Stats, c: R.Stats, xs: seq<Ending>, ys: seq<Ending>)
    requires Grown(a, b, xs) && Grown(b, c, ys)
    ensures Grown(a, c, xs + ys)
  {
    SumsConcat(xs, ys, Wait);
    SumsConcat(xs, ys, Service);
    SumsConcat(xs, ys, Whole);
    CountsConcat(xs, ys, R.Completed, a.lastCompletedAt);
    CountsConcat(xs, ys, R.Failed, a.lastFailedAt);
    CountsConcat(xs, ys, R.Canceled, a.lastCanceledAt);
  }

  lemma SetStatusGrows(reg: R.State, id: R.Id, status: R.Status, now: int)
    requires id in reg.jobs && TimesInOrder(reg.jobs[id], now)
    ensures var d := Ending(reg.jobs[id].createdAt, reg.jobs[id].claimedAt, status, now);
      Grown(reg.stats, R.SetStatus(reg, id, status, now).stats,
            if R.IsTerminal(status) && !R.IsTerminal(reg.jobs[id].status) then [d] else [])
  {
    if R.IsTerminal(status) && !R.IsTerminal(reg.jobs[id].status) {
      RecordGrows(reg.stats, R.WithStatus(reg.jobs[id], status, now), status, now);
    }
  }

  lemma ClaimGrows(s: J.System, e: J.Event)
    requires J.Base(s) && Timely(s) && J.Enabled(s, e) && e.Claim?
    ensures Grown(s.reg.stats, J.Next(s, e).reg.stats, [])
  {
    var r := R.FirstClaimable(s.reg.jobs, s.reg.queue, 0, e.req);
    if r.Some? {
      var id := s.reg.queue[r.value];
      assert TimesInOrder(s.reg.jobs[id], s.clock);
      var queue := s.reg.queue[..r.value] + s.reg.queue[r.value + 1..];
      SetStatusGrows(s.reg.(queue := queue), id, R.Claimed, e.now);
    }
  }

  lemma TerminateGrows(s: J.System, e: J.Event)
    requires Timely(s) && J.Enabled(s, e) && (e.Cancel? || e.Expire?)
    ensures Grown(s.reg.stats, J.Next(s, e).reg.stats, EndingOf(s, e))
  {
    if !R.IsTerminal(s.reg.jobs[e.id].status) {
      assert TimesInOrder(s.reg.jobs[e.id], s.clock);
      var u := if s.reg.jobs[e.id].status.Queued? then s.reg.(queue := R.Without(s.reg.queue, e.id)) else s.reg;
      SetStatusGrows(u, e.id, R.Canceled, e.now);
    }
  }

  lemma ReportGrows(s: J.System, e: J.Event)
    requires Timely(s) && J.Enabled(s, e) && e.FinishReport?
    ensures Grown(s.reg.stats, J.Next(s, e).reg.stats, EndingOf(s, e))
  {
    if J.Accepted(s, e) {
      assert TimesInOrder(s.reg.jobs[e.id], s.clock);
      SetStatusGrows(s.reg, e.id, e.status, e.now);
    }
  }

  lemma TransferGrows(s: J.System, e: J.Event)
    requires Timely(s) && J.Enabled(s, e) && e.FinishTransfer?
    ensures Grown(s.reg.stats, J.Next(s, e).reg.stats, [])
  {
    if e.id in s.reg.jobs {
      assert TimesInOrder(s.reg.jobs[e.id], s.clock);
      var job := s.reg.jobs[e.id];
      var noted :=
        if e.payload then job.(payloads := job.payloads[e.key := e.channel])
        else job.(results := job.results[e.key := e.channel]);
      SetStatusGrows(s.reg.(jobs := s.reg.jobs[e.id := noted]), e.id,
                     if e.payload then R.AwaitingPayload else R.AwaitingResult, e.now);
    }
  }

  lemma StepGrows(s: J.System, e: J.Event)
    requires J.Base(s) && Timely(s) && J.Enabled(s, e)
    ensures Grown(s.reg.stats, J.Next(s, e).reg.stats, EndingOf(s, e))
  {
    match e {
      case Claim(_, _) => ClaimGrows(s, e);
      case Cancel(_, _) => TerminateGrows(s, e);
      case Expire(_, _) => TerminateGrows(s, e);
      case FinishReport(_, _, _, _) => ReportGrows(s, e);
      case FinishTransfer(_, _, _, _, _) => TransferGrows(s, e);
      case _ =>
    }
  }

  lemma {:induction false} RunGrows(s: J.System, es: seq<J.Event>)
    requires J.Valid(s, es) && J.Base(s) && Timely(s)
    ensures Grown(s.reg.stats, J.After(s, es).reg.stats, Endings(s, es))
    decreases |es|
  {
    if es != [] {
      var s' := J.Next(s, es[0]);
      var id := StepIsOneStatus(s, es[0]);
      OneStatusIsTimely(s, es[0], s', id);
      StepGrows(s, es[0]);
      J.StepKeepsBase(s, es[0]);
      RunGrows(s', es[1..]);
      GrownConcat(s.reg.stats, s'.reg.stats, J.After(s', es[1..]).reg.stats, EndingOf(s, es[0]), Endings(s', es[1..]));
    }
  }

  /** For every run: the statistics are what the endings add up to, figure by figure: how many
      jobs ended in each status and when the last did; the waits from creation to claim, or to
      the cancellation of an unclaimed job; the service from claim to end; and the whole. */
  lemma {:induction false} StatisticsOfEndings(clock: int, es: seq<J.Event>)
    requires J.Valid(J.Init(clock), es)
    ensures Grown(R.NoStats(), J.After(J.Init(clock), es).reg.stats, Endings(J.Init(clock), es))
    ensures R.NoStats() == R.Stats(0, 0, 0, 0, 0, 0, 0, 0, 0, None, None, None)
  {
    InitIsCounted(clock);
    RunGrows(J.Init(clock), es);
  }

  // ---------------------------------------------------------------- against the state summary

  /** The buckets of the summary; a status that the source does not know is in none. */
  datatype Bucket = Queued | Claimed | Running | Awaiting | Terminal

  function BucketOf(status: R.Status): Option<Bucket> {
    match status
    case Queued => Some(Bucket.Queued)
    case Claimed => Some(Bucket.Claimed)
    case Running => Some(Bucket.Running)
    case AwaitingPayload => Some(Awaiting)
    case AwaitingResult => Some(Awaiting)
    case Other(_) => None
    case _ => Some(Terminal)
  }

  function Shown(m: R.Summary, b: Bucket): nat {
    match b
    case Queued => m.queued
    case Claimed => m.claimed
    case Running => m.running
    case Awaiting => m.awaiting
    case Terminal => m.terminal
  }

  function InBucket(jobs: Jobs, ids: seq<R.Id>, b: Bucket): set<R.Id> {
    set id | id in ids && id in jobs && BucketOf(jobs[id].status) == Some(b)
  }

  /** The tally does not depend on the order of the visit: each bucket shows how many jobs are
      in it. */
  lemma {:induction false} TallyCounts(jobs: Jobs, ids: seq<R.Id>, now: int, b: Bucket)
    requires NoDuplicates(ids) && AllKnown(jobs, ids)
    ensures var m := R.TallyAll(jobs, ids, now); Shown(m, b) == |InBucket(jobs, ids, b)| && m.total == |ids|
    decreases |ids|
  {
    if ids != [] {
      var n := |ids| - 1;
      TallyCounts(jobs, ids[..n], now, b);
      BucketSnoc(jobs, ids[..n], ids[n], b);
      assert ids[..n] + [ids[n]] == ids;
      TallySnoc(R.TallyAll(jobs, ids[..n], now), jobs[ids[n]], now, b);
    }
  }

  lemma TallySnoc(m: R.Summary, job: R.Job, now: int, b: Bucket)
    ensures var m' := R.Tally(m, job, now);
      && Shown(m', b) == Shown(m, b) + (if BucketOf(job.status) == Some(b) then 1 else 0)
      && m'.total == m.total + 1
  {
  }

  lemma BucketSnoc(jobs: Jobs, front: seq<R.Id>, last: R.Id, b: Bucket)
    requires last !in front && last in jobs
    ensures |InBucket(jobs, front + [last], b)|
         == |InBucket(jobs, front, b)| + (if BucketOf(jobs[last].status) == Some(b) then 1 else 0)
  {
    assert last !in InBucket(jobs, front, b);
    if BucketOf(jobs[last].status) == Some(b) {
      assert InBucket(jobs, front + [last], b) == InBucket(jobs, front, b) + {last};
    } else {
      assert InBucket(jobs, front + [last], b) == InBucket(jobs, front, b);
    }
  }

  /** Whole seconds from one time to a later one, in nanoseconds; none into the past. */
  predicate IsAge(now: int, since: int, age: nat) {
    if now < since then age == 0 else since + age * 1_000_000_000 <= now < since + (age + 1) * 1_000_000_000
  }

  lemma AgeIsSeconds(now: int, since: int)
    ensures IsAge(now, since, R.Age(now, since))
  {
  }

  /** When a job began to wait in the queue, or to be in flight; None for other jobs. */
  function Since(job: R.Job, queued: bool): Option<int> {
    match BucketOf(job.status)
    case None => None
    case Some(b) =>
      if b.Terminal? || b.Queued? != queued then None
      else if queued then Some(job.createdAt)
      else if job.claimedAt.Some? then job.claimedAt
      else Some(job.updatedAt)
  }

  function AgeIn(job: R.Job, queued: bool, now: int): Option<nat> {
    if Since(job, queued).None? then None else Some(R.Age(now, Since(job, queued).value))
  }

  function Oldest(m: R.Summary, queued: bool): nat {
    if queued then m.oldestQueued else m.oldestInflight
  }

  lemma OldestSnoc(m: R.Summary, job: R.Job, queued: bool, now: int)
    ensures var age := AgeIn(job, queued, now);
      Oldest(R.Tally(m, job, now), queued)
      == if age.Some? then R.Max(Oldest(m, queued), age.value) else Oldest(m, queued)
  {
  }

  /** The two ages of the summary are the greatest among the queued jobs and among those in
      flight, in whole seconds since creation, or since the claim or the last change; and 0 when
      there is no such job. */
  lemma {:induction false} OldestIsGreatest(jobs: Jobs, ids: seq<R.Id>, queued: bool, now: int)
    requires AllKnown(jobs, ids)
    ensures var oldest := Oldest(R.TallyAll(jobs, ids, now), queued);
      && (forall id :: id in ids && Since(jobs[id], queued).Some? ==>
            exists age: nat :: age <= oldest && IsAge(now, Since(jobs[id], queued).value, age))
      && (oldest == 0
          || exists id :: id in ids && Since(jobs[id], queued).Some?
               && IsAge(now, Since(jobs[id], queued).value, oldest))
  {
    GreatestAge(jobs, ids, queued, now);
    var oldest := Oldest(R.TallyAll(jobs, ids, now), queued);
    forall id | id in ids && Since(jobs[id], queued).Some?
      ensures IsAge(now, Since(jobs[id], queued).value, AgeIn(jobs[id], queued, now).value)
      ensures AgeIn(jobs[id], queued, now).value <= oldest
    {
      AgeIsSeconds(now, Since(jobs[id], queued).value);
    }
  }

  lemma {:induction false} GreatestAge(jobs: Jobs, ids: seq<R.Id>, queued: bool, now: int)
    requires AllKnown(jobs, ids)
    ensures var oldest := Oldest(R.TallyAll(jobs, ids, now), queued);
      && (forall id :: id in ids && AgeIn(jobs[id], queued, now).Some? ==> AgeIn(jobs[id], queued, now).value <= oldest)
      && (oldest == 0 || exists id :: id in ids && AgeIn(jobs[id], queued, now) == Some(oldest))
    decreases |ids|
  {
    if ids != [] {
      var n := |ids| - 1;
      var front, last := ids[..n], ids[n];
      GreatestAge(jobs, front, queued, now);
      OldestSnoc(R.TallyAll(jobs, front, now), jobs[last], queued, now);
      assert ids == front + [last];
      assert last in ids && forall id :: id in front ==> id in ids;
    }
  }

  lemma TerminalIsThreeCounts(jobs: Jobs, ids: seq<R.Id>)
    requires Elements(ids) == jobs.Keys
    ensures |InBucket(jobs, ids, Terminal)| == |In(jobs, R.Completed)| + |In(jobs, R.Failed)| + |In(jobs, R.Canceled)|
  {
    TerminalIsThreeSets(jobs, ids);
    assert In(jobs, R.Completed) !! In(jobs, R.Failed);
    assert In(jobs, R.Completed) + In(jobs, R.Failed) !! In(jobs, R.Canceled);
  }

  lemma TerminalIsThreeSets(jobs: Jobs, ids: seq<R.Id>)
    requires Elements(ids) == jobs.Keys
    ensures InBucket(jobs, ids, Terminal) == In(jobs, R.Completed) + In(jobs, R.Failed) + In(jobs, R.Canceled)
  {
    assert forall id :: id in ids <==> id in Elements(ids);
  }

  /** For every run and every order in which the summary visits the jobs: the counters add up to
      the terminal jobs shown and the departures from a terminal status, and so to the terminal
      jobs alone if and only if terminal statuses were absorbing; the total is the number of
      jobs; and where reports were truthful the queued jobs shown are as many as the queue has. */
  lemma {:induction false} SummaryAgreesIff(clock: int, es: seq<J.Event>, ids: seq<R.Id>, now: int)
    requires J.Valid(J.Init(clock), es) && Visits(ids, J.After(J.Init(clock), es).reg.jobs)
    ensures var reg := J.After(J.Init(clock), es).reg;
      && AllKnown(reg.jobs, ids)
      && var m := R.TallyAll(reg.jobs, ids, now);
         var counted := reg.stats.completed + reg.stats.failed + reg.stats.canceled;
         && counted == m.terminal + Departures(J.Init(clock), es)
         && (counted == m.terminal <==> J.AbsorbsThroughout(J.Init(clock), es))
         && m.total == |reg.jobs|
         && (J.TruthfulRun(J.Init(clock), es) ==> m.queued == |reg.queue|)
  {
    var s := J.After(J.Init(clock), es);
    VisitedAreKnown(s.reg.jobs, ids);
    TerminalShown(s.reg, ids, now);
    CountedIff(clock, es);
    TotalShown(s.reg, ids, now);
    J.InitBase(clock);
    J.AgreesThroughoutIff(J.Init(clock), es);
    if J.TruthfulRun(J.Init(clock), es) { QueuedShown(s, ids, now); }
  }

  /** Over every run with truthful reports in which terminal statuses are absorbing and only
      claimed jobs complete or fail: end-to-end time is queue wait plus service time, sample for
      sample; the counters are the numbers of completed, failed and canceled jobs; and the
      summary shows their sum as terminal jobs and the queue's length as queued jobs. */
  lemma {:induction false} StatisticsAreConserved(clock: int, es: seq<J.Event>, ids: seq<R.Id>, now: int)
    requires J.Valid(J.Init(clock), es) && J.TruthfulRun(J.Init(clock), es)
    requires J.AbsorbsThroughout(J.Init(clock), es) && UnclaimedEndings(J.Init(clock), es) == 0
    ensures Conserved(J.After(J.Init(clock), es).reg, ids, now)
  {
    BalancedIff(clock, es);
    CountedIff(clock, es);
    if Visits(ids, J.After(J.Init(clock), es).reg.jobs) { SummaryAgreesIff(clock, es, ids, now); }
  }

  /** Calm runs are among them. */
  lemma {:induction false} CalmRunConserves(clock: int, es: seq<J.Event>, ids: seq<R.Id>, now: int)
    requires J.CalmRun(J.Init(clock), es)
    ensures J.Valid(J.Init(clock), es)
    ensures Conserved(J.After(J.Init(clock), es).reg, ids, now)
  {
    J.CalmRunAbsorbs(J.Init(clock), es);
    J.CalmIsDisciplined(J.Init(clock), es);
    J.DisciplinedRunIsTruthful(J.Init(clock), es);
    InitIsCounted(clock);
    OnlyClaimedEnd(J.Init(clock), es);
    StatisticsAreConserved(clock, es, ids, now);
  }

  /** Who was handed out has a claim time, and reports are open only on such jobs. */
  ghost predicate HandedAreClaimed(s: J.System) {
    && (forall id :: id in s.handed && id in s.reg.jobs ==> s.reg.jobs[id].claimedAt.Some?)
    && (forall h :: h in s.pending && h.Reporting? ==> h.id in s.handed)
  }

  lemma ClaimTimeStays(s: J.System, e: J.Event, s': J.System, touched: Option<R.Id>, id: R.Id)
    requires OneStatus(s, e, s', touched) && id in s.reg.jobs && s.reg.jobs[id].claimedAt.Some?
    ensures id in s'.reg.jobs && s'.reg.jobs[id].claimedAt.Some?
  {
  }

  lemma HandedOutIsClaimed(s: J.System, e: J.Event, id: R.Id)
    requires J.Base(s) && Timely(s) && J.Enabled(s, e) && J.HandsOut(s, e, id)
    ensures id in J.Next(s, e).reg.jobs && J.Next(s, e).reg.jobs[id].claimedAt.Some?
  {
    var r := R.FirstClaimable(s.reg.jobs, s.reg.queue, 0, e.req);
    assert TimesInOrder(s.reg.jobs[s.reg.queue[r.value]], s.clock);
    ClaimSets(s.reg, e.req, e.now, r.value);
  }

  lemma HandedBefore(s: J.System, e: J.Event, id: R.Id)
    requires J.Enabled(s, e) && id in J.Next(s, e).handed
    ensures id in s.handed || J.HandsOut(s, e, id)
  {
  }

  lemma StaysHanded(s: J.System, e: J.Event, id: R.Id)
    requires J.Enabled(s, e) && id in s.handed
    ensures id in J.Next(s, e).handed
  {
  }

  lemma ReportBefore(s: J.System, e: J.Event, h: J.Handler)
    requires J.Enabled(s, e) && h in J.Next(s, e).pending && h.Reporting?
    ensures h in s.pending || e == J.BeginReport(h.id)
  {
  }

  lemma StepKeepsClaimed(s: J.System, e: J.Event, touched: Option<R.Id>)
    requires J.Base(s) && Timely(s) && HandedAreClaimed(s) && J.Enabled(s, e) && J.Disciplined(s, e)
    requires OneStatus(s, e, J.Next(s, e), touched)
    ensures HandedAreClaimed(J.Next(s, e))
  {
    var s' := J.Next(s, e);
    forall id | id in s'.handed && id in s'.reg.jobs ensures s'.reg.jobs[id].claimedAt.Some? {
      HandedBefore(s, e, id);
      if id in s.handed { ClaimTimeStays(s, e, s', touched, id); } else { HandedOutIsClaimed(s, e, id); }
    }
    forall h | h in s'.pending && h.Reporting? ensures h.id in s'.handed {
      ReportBefore(s, e, h);
      StaysHanded(s, e, h.id);
    }
  }

  lemma {:induction false} OnlyClaimedEnd(s: J.System, es: seq<J.Event>)
    requires J.Valid(s, es) && J.DisciplinedRun(s, es) && J.Base(s) && Timely(s) && HandedAreClaimed(s)
    ensures UnclaimedEndings(s, es) == 0
    decreases |es|
  {
    if es != [] {
      var e := es[0];
      if e.FinishReport? { assert J.Reporting(e.id) in s.pending; }
      var id := StepIsOneStatus(s, e);
      OneStatusIsTimely(s, e, J.Next(s, e), id);
      J.StepKeepsBase(s, e);
      StepKeepsClaimed(s, e, id);
      OnlyClaimedEnd(J.Next(s, e), es[1..]);
    }
  }

  ghost predicate Conserved(reg: R.State, ids: seq<R.Id>, now: int) {
    Balanced(reg.stats) && Counted(reg) && (Visits(ids, reg.jobs) ==> SummaryAgrees(reg, ids, now))
  }

  /** ids lists every job once, in some order. */
  ghost predicate Visits(ids: seq<R.Id>, jobs: Jobs) {
    NoDuplicates(ids) && Elements(ids) == jobs.Keys
  }

  predicate AllKnown(jobs: Jobs, ids: seq<R.Id>) {
    forall i :: 0 <= i < |ids| ==> ids[i] in jobs
  }

  predicate SummaryAgrees(reg: R.State, ids: seq<R.Id>, now: int) {
    && AllKnown(reg.jobs, ids)
    && var m := R.TallyAll(reg.jobs, ids, now);
       && m.terminal == reg.stats.completed + reg.stats.failed + reg.stats.canceled
       && m.queued == |reg.queue| && m.total == |reg.jobs|
  }

  lemma VisitedAreKnown(jobs: Jobs, ids: seq<R.Id>)
    requires Visits(ids, jobs)
    ensures AllKnown(jobs, ids)
  {
    forall i | 0 <= i < |ids| ensures ids[i] in jobs {
      assert ids[i] in Elements(ids);
    }
  }

  lemma TerminalShown(reg: R.State, ids: seq<R.Id>, now: int)
    requires Visits(ids, reg.jobs) && AllKnown(reg.jobs, ids)
    ensures R.TallyAll(reg.jobs, ids, now).terminal
         == reg.stats.completed + reg.stats.failed + reg.stats.canceled - CountGap(reg)
  {
    TallyCounts(reg.jobs, ids, now, Terminal);
    TerminalIsThreeCounts(reg.jobs, ids);
  }

  lemma TotalShown(reg: R.State, ids: seq<R.Id>, now: int)
    requires Visits(ids, reg.jobs) && AllKnown(reg.jobs, ids)
    ensures R.TallyAll(reg.jobs, ids, now).total == |reg.jobs|
  {
    TallyCounts(reg.jobs, ids, now, Terminal);
    SizeOfElements(ids);
  }

  lemma QueuedShown(s: J.System, ids: seq<R.Id>, now: int)
    requires J.Agreed(s) && Visits(ids, s.reg.jobs) && AllKnown(s.reg.jobs, ids)
    ensures R.TallyAll(s.reg.jobs, ids, now).queued == |s.reg.queue|
  {
    TallyCounts(s.reg.jobs, ids, now, Bucket.Queued);
    QueueLength(s, ids);
  }

  lemma QueueLength(s: J.System, ids: seq<R.Id>)
    requires J.Agreed(s) && Visits(ids, s.reg.jobs)
    ensures |InBucket(s.reg.jobs, ids, Bucket.Queued)| == |s.reg.queue|
  {
    J.QueueFacts(s);
    SizeOfElements(s.reg.queue);
    assert forall id :: id in ids <==> id in Elements(ids);
    assert InBucket(s.reg.jobs, ids, Bucket.Queued) == Elements(s.reg.queue);
  }
}
