/**
  Runs of the job registry: any interleaving of the critical sections of any number of
  handlers (server/internal/jobs/registry.go).  A status update and a transfer request each
  take the lock twice; `pending` holds the handlers that are between their two sections.
*/
module JobRuns {
  import opened Wrappers
  import opened Sequences
  import R = JobRegistry

  type Id = R.Id

  datatype Handler = Reporting(id: Id) | Transferring(id: Id, payload: bool)

  /** `created` and `handed` are histories: ids in order of creation, ids in order of claims. */
  datatype System = System(reg: R.State, pending: multiset<Handler>, created: seq<Id>, handed: seq<Id>, clock: int)

  datatype Event =
    | Create(id: Id, kind: string, workerId: string, workerGroup: string, now: int)
    | Claim(req: R.ClaimRequest, now: int)
    | Cancel(id: Id, now: int)
    | Expire(id: Id, now: int)
    | BeginReport(id: Id)
    | FinishReport(id: Id, status: R.Status, error: Option<R.JobError>, now: int)
    | BeginTransfer(id: Id, payload: bool)
    | FinishTransfer(id: Id, payload: bool, key: string, channel: string, now: int)
    | Abandon(handler: Handler)

  function StatusOf(s: System, id: Id): R.Status
    requires id in s.reg.jobs
  {
    s.reg.jobs[id].status
  }

  /** A fresh id for every job, a clock that does not go back, and the guards of the first
      sections; a request that a guard refuses changes nothing and is not an event. */
  predicate Enabled(s: System, e: Event) {
    match e
    case Create(id, _, _, _, now) => id !in s.reg.jobs && s.clock <= now
    case Claim(_, now) => s.clock <= now
    case Cancel(id, now) => id in s.reg.jobs && s.clock <= now
    case Expire(id, now) => id in s.reg.jobs && s.clock <= now
    case BeginReport(id) => id in s.reg.jobs && !R.IsTerminal(StatusOf(s, id))
    case FinishReport(id, _, _, now) => Reporting(id) in s.pending && s.clock <= now
    case BeginTransfer(id, _) => id in s.reg.jobs && R.CanRequestTransfer(StatusOf(s, id))
    case FinishTransfer(id, payload, _, _, now) => Transferring(id, payload) in s.pending && s.clock <= now
    case Abandon(h) => h in s.pending
  }

  function Next(s: System, e: Event): System
    requires Enabled(s, e)
  {
    match e
    case Create(id, kind, w, g, now) =>
      s.(reg := R.Create(s.reg, id, kind, w, g, now), created := s.created + [id], clock := now)
    case Claim(req, now) =>
      var (reg, claimed) := R.Claim(s.reg, req, now);
      s.(reg := reg, handed := if claimed.Some? then s.handed + [claimed.value] else s.handed, clock := now)
    case Cancel(id, now) => s.(reg := R.Terminate(s.reg, id, None, now), clock := now)
    case Expire(id, now) =>
      s.(reg := R.Terminate(s.reg, id, Some(R.JobError("client_inactive", "client inactive")), now), clock := now)
    case BeginReport(id) => s.(pending := s.pending + multiset{Reporting(id)})
    case FinishReport(id, status, error, now) =>
      s.(reg := R.Report(s.reg, id, status, error, now), pending := s.pending - multiset{Reporting(id)}, clock := now)
    case BeginTransfer(id, payload) => s.(pending := s.pending + multiset{Transferring(id, payload)})
    case FinishTransfer(id, payload, key, channel, now) =>
      s.(reg := R.TransferReady(s.reg, id, payload, key, channel, now),
         pending := s.pending - multiset{Transferring(id, payload)}, clock := now)
    case Abandon(h) => s.(pending := s.pending - multiset{h})
  }

  function Init(clock: int): System {
    System(R.State(map[], [], R.NoStats()), multiset{}, [], [], clock)
  }

  predicate Valid(s: System, es: seq<Event>)
    decreases |es|
  {
    es == [] || (Enabled(s, es[0]) && Valid(Next(s, es[0]), es[1..]))
  }

  function After(s: System, es: seq<Event>): System
    requires Valid(s, es)
    decreases |es|
  {
    if es == [] then s else After(Next(s, es[0]), es[1..])
  }

  // ---------------------------------------------------------------- order-preserving sub-sequences

  /** The members of `keep`, in the order in which xs has them. */
  function Restrict(xs: seq<Id>, keep: set<Id>): (ys: seq<Id>)
    ensures forall y :: y in ys <==> y in xs && y in keep
  {
    if xs == [] then []
    else
      var rest := Restrict(xs[1..], keep);
      if xs[0] in keep then [xs[0]] + rest else rest
  }

  lemma {:induction false} RestrictNoDuplicates(xs: seq<Id>, keep: set<Id>)
    requires NoDuplicates(xs)
    ensures NoDuplicates(Restrict(xs, keep))
  {
    if xs != [] { RestrictNoDuplicates(xs[1..], keep); }
  }

  lemma {:induction false} RestrictSnoc(xs: seq<Id>, keep: set<Id>, x: Id)
    requires x !in xs
    ensures Restrict(xs + [x], keep + {x}) == Restrict(xs, keep) + [x]
  {
    if xs == [] {
      assert xs + [x] == [x];
    } else {
      assert (xs + [x])[1..] == xs[1..] + [x];
      RestrictSnoc(xs[1..], keep, x);
    }
  }

  lemma {:induction false} RestrictWithout(xs: seq<Id>, keep: set<Id>, x: Id)
    requires NoDuplicates(xs)
    ensures R.Without(Restrict(xs, keep), x) == Restrict(xs, keep - {x})
  {
    if xs != [] {
      RestrictWithout(xs[1..], keep, x);
      if xs[0] == x {
        RestrictSame(xs[1..], keep, keep - {x});
        R.WithoutAbsent(Restrict(xs[1..], keep), x);
      }
    }
  }

  lemma {:induction false} RestrictSame(xs: seq<Id>, keep: set<Id>, keep': set<Id>)
    requires forall x :: x in xs ==> (x in keep <==> x in keep')
    ensures Restrict(xs, keep) == Restrict(xs, keep')
  {
    if xs != [] { RestrictSame(xs[1..], keep, keep'); }
  }

  lemma WithoutAt(xs: seq<Id>, i: nat)
    requires NoDuplicates(xs) && i < |xs|
    ensures R.Without(xs, xs[i]) == xs[..i] + xs[i + 1..]
  {
    R.WithoutFirst(xs, i, xs[i]);
  }

  /** Order is kept: what comes earlier in xs comes earlier in the restriction. */
  lemma {:induction false} RestrictOrder(xs: seq<Id>, keep: set<Id>, i: nat, j: nat) returns (p: nat, q: nat)
    requires i < j < |xs| && xs[i] in keep && xs[j] in keep
    ensures p < q < |Restrict(xs, keep)| && Restrict(xs, keep)[p] == xs[i] && Restrict(xs, keep)[q] == xs[j]
  {
    var rest := Restrict(xs[1..], keep);
    if i > 0 {
      p, q := RestrictOrder(xs[1..], keep, i - 1, j - 1);
      if xs[0] in keep { p, q := p + 1, q + 1; }
    } else {
      assert xs[1..][j - 1] == xs[j];
      assert xs[j] in rest;
      q :| 0 <= q < |rest| && rest[q] == xs[j];
      p, q := 0, q + 1;
    }
  }

  // ---------------------------------------------------------------- what holds in every run

  ghost predicate Base(s: System) {
    && NoDuplicates(s.created) && Elements(s.created) == s.reg.jobs.Keys
    && s.reg.queue == Restrict(s.created, Elements(s.reg.queue))
    && NoDuplicates(s.handed)
    && (forall id :: id in s.handed ==> id in s.reg.jobs && id !in s.reg.queue)
    && (forall h :: h in s.pending ==> h.id in s.reg.jobs)
  }

  lemma QueueFacts(s: System)
    requires Base(s)
    ensures NoDuplicates(s.reg.queue)
    ensures forall id :: id in s.reg.queue ==> id in s.reg.jobs
  {
    RestrictNoDuplicates(s.created, Elements(s.reg.queue));
    forall id | id in s.reg.queue ensures id in s.reg.jobs {
      assert id in Elements(s.created);
    }
  }

  lemma Dequeue(s: System, id: Id)
    requires Base(s)
    ensures var q := R.Without(s.reg.queue, id);
            q == Restrict(s.created, Elements(q)) && Elements(q) == Elements(s.reg.queue) - {id}
  {
    var keep := Elements(s.reg.queue);
    RestrictWithout(s.created, keep, id);
    var q := R.Without(s.reg.queue, id);
    assert forall x :: x in q <==> x in s.created && x in keep - {id};
    assert forall x :: x in keep ==> x in s.created;
    assert Elements(q) == keep - {id};
  }

  lemma CreateKeepsBase(s: System, e: Event)
    requires Base(s) && Enabled(s, e) && e.Create?
    ensures Base(Next(s, e))
  {
    var s' := Next(s, e);
    assert e.id !in Elements(s.created);
    RestrictSnoc(s.created, Elements(s.reg.queue), e.id);
    assert Elements(s'.reg.queue) == Elements(s.reg.queue) + {e.id};
    assert Elements(s'.created) == Elements(s.created) + {e.id};
  }

  lemma ClaimDequeues(s: System, req: R.ClaimRequest, now: int, i: nat)
    requires Base(s) && R.FirstClaimable(s.reg.jobs, s.reg.queue, 0, req) == Some(i)
    ensures i < |s.reg.queue| && s.reg.queue[i] in s.reg.jobs
    ensures var (reg, claimed) := R.Claim(s.reg, req, now);
      && claimed == Some(s.reg.queue[i]) && reg.jobs.Keys == s.reg.jobs.Keys
      && reg.queue == Restrict(s.created, Elements(reg.queue))
      && Elements(reg.queue) == Elements(s.reg.queue) - {s.reg.queue[i]}
  {
    QueueFacts(s);
    WithoutAt(s.reg.queue, i);
    Dequeue(s, s.reg.queue[i]);
  }

  lemma ClaimKeepsBase(s: System, e: Event)
    requires Base(s) && Enabled(s, e) && e.Claim?
    ensures Base(Next(s, e))
  {
    var r := R.FirstClaimable(s.reg.jobs, s.reg.queue, 0, e.req);
    if r.Some? {
      var id := s.reg.queue[r.value];
      ClaimDequeues(s, e.req, e.now, r.value);
      assert id in Elements(s.reg.queue) && id !in s.handed;
      var s' := Next(s, e);
      assert forall x :: x in s'.reg.queue ==> x in Elements(s'.reg.queue);
    }
  }

  lemma TerminateKeepsBase(s: System, id: Id, error: Option<R.JobError>, now: int)
    requires Base(s) && id in s.reg.jobs
    ensures Base(s.(reg := R.Terminate(s.reg, id, error, now), clock := now))
  {
    Dequeue(s, id);
    var reg := R.Terminate(s.reg, id, error, now);
    assert reg.jobs.Keys == s.reg.jobs.Keys;
    assert forall x :: x in reg.queue ==> x in Elements(s.reg.queue);
  }

  /** A section that leaves the queue and the set of ids alone, and hands nothing out. */
  lemma QuietStepKeepsBase(s: System, s': System)
    requires Base(s) && s'.created == s.created && s'.handed == s.handed
    requires s'.reg.queue == s.reg.queue && s'.reg.jobs.Keys == s.reg.jobs.Keys
    requires forall h :: h in s'.pending ==> h in s.pending || h.id in s.reg.jobs
    ensures Base(s')
  {
  }

  lemma StepKeepsBase(s: System, e: Event)
    requires Base(s) && Enabled(s, e)
    ensures Base(Next(s, e))
  {
    match e {
      case Create(_, _, _, _, _) => CreateKeepsBase(s, e);
      case Claim(_, _) => ClaimKeepsBase(s, e);
      case Cancel(id, now) => TerminateKeepsBase(s, id, None, now);
      case Expire(id, now) => TerminateKeepsBase(s, id, Some(R.JobError("client_inactive", "client inactive")), now);
      case FinishReport(_, _, _, _) => ReportIsQuiet(s, e);
      case FinishTransfer(_, _, _, _, _) => TransferIsQuiet(s, e);
      case _ => QuietStepKeepsBase(s, Next(s, e));
    }
  }

  lemma ReportIsQuiet(s: System, e: Event)
    requires Base(s) && Enabled(s, e) && e.FinishReport?
    ensures Base(Next(s, e))
  {
    assert Reporting(e.id) in s.pending;
    assert Next(s, e).reg.jobs.Keys == s.reg.jobs.Keys;
    QuietStepKeepsBase(s, Next(s, e));
  }

  lemma TransferIsQuiet(s: System, e: Event)
    requires Base(s) && Enabled(s, e) && e.FinishTransfer?
    ensures Base(Next(s, e))
  {
    assert Transferring(e.id, e.payload) in s.pending;
    assert Next(s, e).reg.jobs.Keys == s.reg.jobs.Keys;
    QuietStepKeepsBase(s, Next(s, e));
  }

  lemma {:induction false} RunKeepsBase(s: System, es: seq<Event>)
    requires Base(s) && Valid(s, es)
    ensures Base(After(s, es))
    decreases |es|
  {
    if es != [] {
      StepKeepsBase(s, es[0]);
      RunKeepsBase(Next(s, es[0]), es[1..]);
    }
  }

  lemma InitBase(clock: int)
    ensures Base(Init(clock))
  {
  }

  /** In every run, whatever the workers report: a job is handed out at most once, and the
      queue has no duplicates and keeps the order of creation. */
  lemma {:induction false} HandedOutOnceInOrder(clock: int, es: seq<Event>)
    requires Valid(Init(clock), es)
    ensures var s := After(Init(clock), es);
            && NoDuplicates(s.handed) && (forall id :: id in s.handed ==> id !in s.reg.queue)
            && NoDuplicates(s.reg.queue) && s.reg.queue == Restrict(s.created, Elements(s.reg.queue))
  {
    InitBase(clock);
    RunKeepsBase(Init(clock), es);
    QueueFacts(After(Init(clock), es));
  }

  /** Claims are first come, first served among the jobs that fit the request: when a job is
      handed out, no earlier-created job that fits is still queued, and when none is, none fits. */
  lemma {:induction false} ClaimIsFifo(s: System, req: R.ClaimRequest, now: int)
    requires Base(s)
    ensures var claimed := R.Claim(s.reg, req, now).1;
      && (claimed.Some? ==>
            && claimed.value in s.reg.queue && claimed.value in s.reg.jobs
            && R.Compatible(s.reg.jobs[claimed.value], req)
            && forall i, j :: 0 <= i < j < |s.created| && s.created[j] == claimed.value && s.created[i] in s.reg.queue
                 ==> s.created[i] in s.reg.jobs && !R.Compatible(s.reg.jobs[s.created[i]], req))
      && (claimed.None? ==> forall id :: id in s.reg.queue ==> id in s.reg.jobs && !R.Compatible(s.reg.jobs[id], req))
  {
    QueueFacts(s);
    var q := s.reg.queue;
    var r := R.FirstClaimable(s.reg.jobs, q, 0, req);
    if r.Some? {
      forall i, j | 0 <= i < j < |s.created| && s.created[j] == q[r.value] && s.created[i] in q
        ensures s.created[i] in s.reg.jobs && !R.Compatible(s.reg.jobs[s.created[i]], req)
      {
        var a, b := RestrictOrder(s.created, Elements(q), i, j);
        assert b == r.value;
        assert q[a] == s.created[i];
      }
    }
  }

  // ---------------------------------------------------------------- the queue is the set of queued jobs

  /** Workers report only on jobs that have been handed out, and never name `queued`. */
  predicate Disciplined(s: System, e: Event) {
    match e
    case BeginReport(id) => id in s.handed
    case FinishReport(_, status, _, _) => !status.Queued?
    case _ => true
  }

  /** No job becomes terminal while a transfer request on it is between its two sections. */
  predicate Calm(s: System, e: Event) {
    match e
    case Cancel(id, _) => NoTransferOpen(s, id)
    case Expire(id, _) => NoTransferOpen(s, id)
    case FinishReport(id, status, _, _) => R.IsTerminal(status) ==> NoTransferOpen(s, id)
    case _ => true
  }

  predicate NoTransferOpen(s: System, id: Id) {
    Transferring(id, true) !in s.pending && Transferring(id, false) !in s.pending
  }

  function QueuedIds(s: System): set<Id> {
    set id | id in s.reg.jobs && s.reg.jobs[id].status.Queued?
  }

  /** A job's status says queued exactly when the job is in the queue. */
  predicate Agrees(s: System) {
    forall id :: id in s.reg.jobs ==> (StatusOf(s, id).Queued? <==> id in s.reg.queue)
  }

  /** Agreement, and what keeps it: no transfer request is open on a job in the queue. */
  ghost predicate Agreed(s: System) {
    Base(s) && Agrees(s) && forall h :: h in s.pending && h.Transferring? ==> h.id !in s.reg.queue
  }

  /** Nor is a report. */
  ghost predicate Exact(s: System) {
    Agreed(s) && forall h :: h in s.pending && h.Reporting? ==> h.id !in s.reg.queue
  }

  lemma AgreedMeans(s: System)
    requires Agreed(s)
    ensures s.reg.queue == Restrict(s.created, QueuedIds(s))
  {
    QueueFacts(s);
    assert QueuedIds(s) == Elements(s.reg.queue);
  }

  /** What a terminating step does to the queue and to the statuses. */
  lemma TerminateEffect(s: System, id: Id, error: Option<R.JobError>, now: int)
    requires Base(s) && id in s.reg.jobs
    ensures var reg := R.Terminate(s.reg, id, error, now);
      && reg.jobs.Keys == s.reg.jobs.Keys
      && (forall x :: x in s.reg.jobs && x != id ==> reg.jobs[x] == s.reg.jobs[x])
      && reg.jobs[id].status == (if R.IsTerminal(StatusOf(s, id)) then StatusOf(s, id) else R.Canceled)
      && (forall x :: x in reg.queue <==> x in s.reg.queue && !(x == id && StatusOf(s, id).Queued?))
  {
    Dequeue(s, id);
    assert forall x :: x in R.Without(s.reg.queue, id) <==> x in Elements(R.Without(s.reg.queue, id));
    assert forall x :: x in s.reg.queue <==> x in Elements(s.reg.queue);
  }

  lemma ClaimEffect(s: System, req: R.ClaimRequest, now: int)
    requires Base(s)
    ensures var (reg, claimed) := R.Claim(s.reg, req, now);
      && reg.jobs.Keys == s.reg.jobs.Keys
      && (forall x :: x in s.reg.jobs && claimed != Some(x) ==> reg.jobs[x] == s.reg.jobs[x])
      && (claimed.Some? ==> claimed.value in s.reg.jobs && claimed.value in s.reg.queue)
      && (claimed.Some? ==> reg.jobs[claimed.value].status.Claimed?)
      && (forall x :: x in reg.queue <==> x in s.reg.queue && claimed != Some(x))
  {
    var r := R.FirstClaimable(s.reg.jobs, s.reg.queue, 0, req);
    if r.Some? {
      var id := s.reg.queue[r.value];
      QueueFacts(s);
      WithoutAt(s.reg.queue, r.value);
      Dequeue(s, id);
      var q := R.Without(s.reg.queue, id);
      assert forall x :: x in q <==> x in Elements(q);
      assert forall x :: x in s.reg.queue <==> x in Elements(s.reg.queue);
    }
  }

  lemma ClaimKeepsAgreed(s: System, e: Event)
    requires Agreed(s) && Enabled(s, e) && e.Claim? && Base(Next(s, e))
    ensures Agreed(Next(s, e))
  {
    ClaimEffect(s, e.req, e.now);
  }

  lemma TerminateKeepsAgreed(s: System, s': System, id: Id, error: Option<R.JobError>, now: int)
    requires Agreed(s) && id in s.reg.jobs && Base(s')
    requires s' == s.(reg := R.Terminate(s.reg, id, error, now), clock := now)
    ensures Agreed(s')
  {
    TerminateEffect(s, id, error, now);
  }

  /** The report is accepted: its job is not terminal. */
  predicate Accepted(s: System, e: Event) {
    e.FinishReport? && e.id in s.reg.jobs && !R.IsTerminal(StatusOf(s, e.id))
  }

  /** A report that is accepted names `queued` exactly when its job is in the queue. */
  predicate Truthful(s: System, e: Event) {
    Accepted(s, e) ==> (e.status.Queued? <==> e.id in s.reg.queue)
  }

  /** For one report on any job, in the queue or not: status and queue still agree if and only if
      the report was truthful. */
  lemma {:induction false} ReportKeepsAgreementIff(s: System, e: Event)
    requires Agreed(s) && Enabled(s, e) && Accepted(s, e)
    ensures Agrees(Next(s, e)) <==> Truthful(s, e)
    ensures Agreed(Next(s, e)) <==> Truthful(s, e)
  {
    ReportIsQuiet(s, e);
    ReportEffect(s, e.id, e.status, e.error, e.now);
    PendingShrinks(s.pending, Reporting(e.id));
    var s' := Next(s, e);
    if Truthful(s, e) {
      forall x | x in s'.reg.jobs ensures StatusOf(s', x).Queued? <==> x in s'.reg.queue {
        if x != e.id { assert StatusOf(s', x) == StatusOf(s, x); }
      }
    } else {
      assert !(StatusOf(s', e.id).Queued? <==> e.id in s'.reg.queue);
    }
  }

  lemma ReportEffect(s: System, id: Id, status: R.Status, error: Option<R.JobError>, now: int)
    requires id in s.reg.jobs && !R.IsTerminal(StatusOf(s, id))
    ensures var reg := R.Report(s.reg, id, status, error, now);
      && reg.jobs.Keys == s.reg.jobs.Keys && reg.queue == s.reg.queue
      && reg.jobs[id].status == status
      && forall x :: x in s.reg.jobs && x != id ==> reg.jobs[x] == s.reg.jobs[x]
  {
  }

  lemma PendingShrinks(pending: multiset<Handler>, h: Handler)
    ensures forall x :: x in pending - multiset{h} ==> x in pending
  {
  }

  lemma RefusedReportKeepsAgreed(s: System, e: Event)
    requires Agreed(s) && Enabled(s, e) && e.FinishReport? && !Accepted(s, e)
    ensures Agreed(Next(s, e))
  {
    assert Reporting(e.id) in s.pending;
    ReportIsQuiet(s, e);
    PendingShrinks(s.pending, Reporting(e.id));
  }

  lemma TransferKeepsAgreement(s: System, e: Event)
    requires Agreed(s) && Enabled(s, e) && e.FinishTransfer? && e.id in s.reg.jobs && e.id !in s.reg.queue
    ensures Agrees(Next(s, e)) && Next(s, e).reg.queue == s.reg.queue
  {
    TransferEffect(s, e.id, e.payload, e.key, e.channel, e.now);
  }

  lemma TransferKeepsAgreed(s: System, e: Event)
    requires Agreed(s) && Enabled(s, e) && e.FinishTransfer?
    ensures Agreed(Next(s, e))
  {
    TransferIsQuiet(s, e);
    assert Transferring(e.id, e.payload) in s.pending;
    TransferKeepsAgreement(s, e);
    PendingShrinks(s.pending, Transferring(e.id, e.payload));
  }

  lemma CreateKeepsAgreed(s: System, e: Event)
    requires Agreed(s) && Enabled(s, e) && e.Create? && Base(Next(s, e))
    ensures Agreed(Next(s, e))
  {
    QueueFacts(s);
    forall x | x in Next(s, e).reg.jobs
      ensures StatusOf(Next(s, e), x).Queued? <==> x in Next(s, e).reg.queue
    {
    }
  }

  lemma BeginKeepsAgreed(s: System, e: Event)
    requires Agreed(s) && Enabled(s, e) && Base(Next(s, e)) && (e.BeginReport? || e.BeginTransfer? || e.Abandon?)
    ensures Agreed(Next(s, e))
  {
    if e.Abandon? { PendingShrinks(s.pending, e.handler); }
  }

  lemma StepKeepsAgreed(s: System, e: Event)
    requires Agreed(s) && Enabled(s, e) && Truthful(s, e)
    ensures Agreed(Next(s, e))
  {
    StepKeepsBase(s, e);
    match e {
      case Create(_, _, _, _, _) => CreateKeepsAgreed(s, e);
      case Claim(_, _) => ClaimKeepsAgreed(s, e);
      case Cancel(id, now) => TerminateKeepsAgreed(s, Next(s, e), id, None, now);
      case Expire(id, now) =>
        TerminateKeepsAgreed(s, Next(s, e), id, Some(R.JobError("client_inactive", "client inactive")), now);
      case FinishReport(_, _, _, _) =>
        if Accepted(s, e) { ReportKeepsAgreementIff(s, e); } else { RefusedReportKeepsAgreed(s, e); }
      case FinishTransfer(_, _, _, _, _) => TransferKeepsAgreed(s, e);
      case _ => BeginKeepsAgreed(s, e);
    }
  }

  predicate TruthfulRun(s: System, es: seq<Event>)
    requires Valid(s, es)
    decreases |es|
  {
    es != [] ==> Truthful(s, es[0]) && TruthfulRun(Next(s, es[0]), es[1..])
  }

  /** Statuses and queue agree before the run and after each of its steps. */
  predicate AgreesThroughout(s: System, es: seq<Event>)
    requires Valid(s, es)
    decreases |es|
  {
    Agrees(s) && (es != [] ==> AgreesThroughout(Next(s, es[0]), es[1..]))
  }

  lemma {:induction false} AgreesThroughoutIff(s: System, es: seq<Event>)
    requires Valid(s, es) && Agreed(s)
    ensures AgreesThroughout(s, es) <==> TruthfulRun(s, es)
    ensures TruthfulRun(s, es) ==> Agreed(After(s, es))
    decreases |es|
  {
    if es != [] {
      var s' := Next(s, es[0]);
      if Truthful(s, es[0]) {
        StepKeepsAgreed(s, es[0]);
        AgreesThroughoutIff(s', es[1..]);
      } else {
        ReportKeepsAgreementIff(s, es[0]);
        assert !AgreesThroughout(s', es[1..]);
      }
    }
  }

  /** The exact condition, for every run: at every point the queue is the jobs in status queued
      if and only if each report that is accepted names `queued` exactly when its job is in the
      queue.  It is then in the order of creation. */
  lemma {:induction false} QueueAgreesIff(clock: int, es: seq<Event>)
    requires Valid(Init(clock), es)
    ensures AgreesThroughout(Init(clock), es) <==> TruthfulRun(Init(clock), es)
    ensures TruthfulRun(Init(clock), es) ==>
      var s := After(Init(clock), es); s.reg.queue == Restrict(s.created, QueuedIds(s))
  {
    AgreesThroughoutIff(Init(clock), es);
    if TruthfulRun(Init(clock), es) { AgreedMeans(After(Init(clock), es)); }
  }

  // ---- disciplined workers

  lemma DisciplinedIsTruthful(s: System, e: Event)
    requires Exact(s) && Enabled(s, e) && Disciplined(s, e)
    ensures Truthful(s, e)
  {
    if e.FinishReport? { assert Reporting(e.id) in s.pending; }
  }

  lemma ReportsStayOutside(s: System, e: Event)
    requires Exact(s) && Enabled(s, e) && Disciplined(s, e)
    ensures forall h :: h in Next(s, e).pending && h.Reporting? ==> h.id !in Next(s, e).reg.queue
  {
    forall h | h in Next(s, e).pending && h.Reporting? ensures h.id !in Next(s, e).reg.queue {
      if h in s.pending {
        QueueOnlyGrowsByCreation(s, e, h.id);
      } else {
        assert e.BeginReport? && h == Reporting(e.id);
      }
    }
  }

  lemma QueueOnlyGrowsByCreation(s: System, e: Event, id: Id)
    requires Base(s) && Enabled(s, e) && id in s.reg.jobs && id !in s.reg.queue
    ensures id !in Next(s, e).reg.queue
  {
    match e {
      case Claim(req, now) => ClaimEffect(s, req, now);
      case Cancel(x, now) => TerminateEffect(s, x, None, now);
      case Expire(x, now) => TerminateEffect(s, x, Some(R.JobError("client_inactive", "client inactive")), now);
      case _ =>
    }
  }

  lemma StepKeepsExact(s: System, e: Event)
    requires Exact(s) && Enabled(s, e) && Disciplined(s, e)
    ensures Exact(Next(s, e))
  {
    DisciplinedIsTruthful(s, e);
    StepKeepsAgreed(s, e);
    ReportsStayOutside(s, e);
  }

  predicate DisciplinedRun(s: System, es: seq<Event>)
    decreases |es|
  {
    es == [] || (Enabled(s, es[0]) && Disciplined(s, es[0]) && DisciplinedRun(Next(s, es[0]), es[1..]))
  }

  lemma {:induction false} DisciplinedRunIsTruthful(s: System, es: seq<Event>)
    requires Exact(s) && DisciplinedRun(s, es)
    ensures Valid(s, es) && TruthfulRun(s, es)
    decreases |es|
  {
    if es != [] {
      DisciplinedIsTruthful(s, es[0]);
      StepKeepsExact(s, es[0]);
      DisciplinedRunIsTruthful(Next(s, es[0]), es[1..]);
    }
  }

  /** With workers that report only on claimed jobs and never name `queued`, the queue is the
      set of jobs in status queued, in creation order, at every point of every interleaving. */
  lemma {:induction false} QueueIsQueuedJobs(clock: int, es: seq<Event>)
    requires DisciplinedRun(Init(clock), es)
    ensures Valid(Init(clock), es) && AgreesThroughout(Init(clock), es)
    ensures var s := After(Init(clock), es); s.reg.queue == Restrict(s.created, QueuedIds(s))
  {
    DisciplinedRunIsTruthful(Init(clock), es);
    QueueAgreesIff(clock, es);
  }

  // ---------------------------------------------------------------- terminal statuses

  predicate HandsOut(s: System, e: Event, id: Id) {
    e.Claim? && R.Claim(s.reg, e.req, e.now).1 == Some(id)
  }

  /** In every run, exactly two kinds of step take a job out of a terminal status: a claim of a
      job that is still queued although it is terminal, and the second section of a transfer
      request.  In particular a status update never does: it checks again. */
  lemma {:induction false} LeavesTerminalIff(s: System, e: Event, id: Id)
    requires Base(s) && Enabled(s, e) && id in s.reg.jobs && R.IsTerminal(StatusOf(s, id))
    ensures id in Next(s, e).reg.jobs
    ensures StatusOf(Next(s, e), id) != StatusOf(s, id) <==> HandsOut(s, e, id) || (e.FinishTransfer? && e.id == id)
  {
    match e {
      case Claim(req, now) => ClaimEffect(s, req, now);
      case Cancel(x, now) => TerminateEffect(s, x, None, now);
      case Expire(x, now) => TerminateEffect(s, x, Some(R.JobError("client_inactive", "client inactive")), now);
      case FinishTransfer(x, payload, _, _, _) => assert Transferring(x, payload) in s.pending;
      case _ =>
    }
  }

  /** The step changes no terminal status. */
  predicate Absorbs(s: System, e: Event)
    requires Enabled(s, e)
  {
    forall id :: id in s.reg.jobs && R.IsTerminal(StatusOf(s, id)) ==>
      id in Next(s, e).reg.jobs && StatusOf(Next(s, e), id) == StatusOf(s, id)
  }

  /** A second section of a transfer request finds its job not terminal. */
  predicate LandsInTime(s: System, e: Event) {
    e.FinishTransfer? && e.id in s.reg.jobs ==> !R.IsTerminal(StatusOf(s, e.id))
  }

  /** Nor does a claim hand out a terminal job. */
  predicate FindsLive(s: System, e: Event) {
    LandsInTime(s, e) && forall id :: id in s.reg.jobs && HandsOut(s, e, id) ==> !R.IsTerminal(StatusOf(s, id))
  }

  lemma StepAbsorbsIff(s: System, e: Event)
    requires Base(s) && Enabled(s, e)
    ensures Absorbs(s, e) <==> FindsLive(s, e)
  {
    forall id | id in s.reg.jobs && R.IsTerminal(StatusOf(s, id))
      ensures id in Next(s, e).reg.jobs
      ensures StatusOf(Next(s, e), id) != StatusOf(s, id) <==> HandsOut(s, e, id) || (e.FinishTransfer? && e.id == id)
    {
      LeavesTerminalIff(s, e, id);
    }
  }

  predicate AbsorbsThroughout(s: System, es: seq<Event>)
    requires Valid(s, es)
    decreases |es|
  {
    es != [] ==> Absorbs(s, es[0]) && AbsorbsThroughout(Next(s, es[0]), es[1..])
  }

  predicate AllFindLive(s: System, es: seq<Event>)
    requires Valid(s, es)
    decreases |es|
  {
    es != [] ==> FindsLive(s, es[0]) && AllFindLive(Next(s, es[0]), es[1..])
  }

  predicate AllLandInTime(s: System, es: seq<Event>)
    requires Valid(s, es)
    decreases |es|
  {
    es != [] ==> LandsInTime(s, es[0]) && AllLandInTime(Next(s, es[0]), es[1..])
  }

  /** The exact condition, for every run: terminal statuses are absorbing if and only if every
      claim and every second section of a transfer request finds its job not terminal, which
      are the two checks that the source leaves out.  With truthful reports the claims do. */
  lemma {:induction false} RunAbsorbsIff(clock: int, es: seq<Event>)
    requires Valid(Init(clock), es)
    ensures AbsorbsThroughout(Init(clock), es) <==> AllFindLive(Init(clock), es)
    ensures TruthfulRun(Init(clock), es) ==>
      (AbsorbsThroughout(Init(clock), es) <==> AllLandInTime(Init(clock), es))
  {
    RestAbsorbsIff(Init(clock), es);
    if TruthfulRun(Init(clock), es) { ClaimsFindLive(Init(clock), es); }
  }

  lemma {:induction false} RestAbsorbsIff(s: System, es: seq<Event>)
    requires Valid(s, es) && Base(s)
    ensures AbsorbsThroughout(s, es) <==> AllFindLive(s, es)
    decreases |es|
  {
    if es != [] {
      StepAbsorbsIff(s, es[0]);
      StepKeepsBase(s, es[0]);
      RestAbsorbsIff(Next(s, es[0]), es[1..]);
    }
  }

  lemma ClaimFindsLive(s: System, e: Event)
    requires Agreed(s) && Enabled(s, e)
    ensures FindsLive(s, e) <==> LandsInTime(s, e)
  {
    if e.Claim? { ClaimEffect(s, e.req, e.now); }
  }

  lemma {:induction false} ClaimsFindLive(s: System, es: seq<Event>)
    requires Valid(s, es) && Agreed(s) && TruthfulRun(s, es)
    ensures AllFindLive(s, es) <==> AllLandInTime(s, es)
    decreases |es|
  {
    if es != [] {
      ClaimFindsLive(s, es[0]);
      StepKeepsAgreed(s, es[0]);
      ClaimsFindLive(Next(s, es[0]), es[1..]);
    }
  }

  /** Transfer requests are open only on jobs that are not terminal. */
  ghost predicate Settled(s: System) {
    Exact(s) && forall h :: h in s.pending && h.Transferring? ==> NotTerminal(s, h.id)
  }

  predicate NotTerminal(s: System, id: Id) {
    id in s.reg.jobs && !R.IsTerminal(StatusOf(s, id))
  }

  lemma TerminateKeepsSettled(s: System, s': System, x: Id, error: Option<R.JobError>, now: int)
    requires Settled(s) && x in s.reg.jobs && NoTransferOpen(s, x) && Exact(s')
    requires s' == s.(reg := R.Terminate(s.reg, x, error, now), clock := now)
    ensures Settled(s')
  {
    TerminateEffect(s, x, error, now);
    forall h | h in s'.pending && h.Transferring? ensures NotTerminal(s', h.id) {
      assert NotTerminal(s, h.id);
      assert h == Transferring(h.id, h.payload) && (h.payload == true || h.payload == false);
      assert h.id != x;
    }
  }

  lemma ReportKeepsSettled(s: System, e: Event)
    requires Settled(s) && Enabled(s, e) && e.FinishReport? && e.id in s.reg.jobs && Calm(s, e) && Exact(Next(s, e))
    ensures Settled(Next(s, e))
  {
    var s' := Next(s, e);
    PendingShrinks(s.pending, Reporting(e.id));
    if !R.IsTerminal(StatusOf(s, e.id)) { ReportEffect(s, e.id, e.status, e.error, e.now); }
    forall h | h in s'.pending && h.Transferring? ensures NotTerminal(s', h.id) {
      assert NotTerminal(s, h.id);
      assert h == Transferring(h.id, h.payload) && (h.payload == true || h.payload == false);
      assert h.id == e.id ==> !R.IsTerminal(e.status);
    }
  }

  lemma TransferEffect(s: System, id: Id, payload: bool, key: string, channel: string, now: int)
    requires id in s.reg.jobs
    ensures var reg := R.TransferReady(s.reg, id, payload, key, channel, now);
      && reg.jobs.Keys == s.reg.jobs.Keys && reg.queue == s.reg.queue
      && reg.jobs[id].status == (if payload then R.AwaitingPayload else R.AwaitingResult)
      && forall x :: x in s.reg.jobs && x != id ==> reg.jobs[x] == s.reg.jobs[x]
  {
  }

  /** A transfer request makes no job terminal. */
  lemma TransferKeepsOpen(s: System, e: Event, x: Id)
    requires Enabled(s, e) && e.FinishTransfer? && e.id in s.reg.jobs && NotTerminal(s, x)
    ensures NotTerminal(Next(s, e), x)
  {
    TransferEffect(s, e.id, e.payload, e.key, e.channel, e.now);
  }

  lemma TransferKeepsSettled(s: System, e: Event)
    requires Settled(s) && Enabled(s, e) && e.FinishTransfer? && e.id in s.reg.jobs && Exact(Next(s, e))
    ensures Settled(Next(s, e))
  {
    var s' := Next(s, e);
    PendingShrinks(s.pending, Transferring(e.id, e.payload));
    forall h | h in s'.pending && h.Transferring? ensures NotTerminal(s', h.id) {
      TransferKeepsOpen(s, e, h.id);
    }
  }

  lemma ClaimKeepsSettled(s: System, e: Event)
    requires Settled(s) && Enabled(s, e) && e.Claim? && Exact(Next(s, e))
    ensures Settled(Next(s, e))
  {
    ClaimEffect(s, e.req, e.now);
    forall h | h in Next(s, e).pending && h.Transferring? ensures NotTerminal(Next(s, e), h.id) {
      assert NotTerminal(s, h.id);
    }
  }

  lemma StepKeepsSettled(s: System, e: Event)
    requires Settled(s) && Enabled(s, e) && Disciplined(s, e) && Calm(s, e)
    ensures Settled(Next(s, e))
  {
    StepKeepsExact(s, e);
    match e {
      case Claim(_, _) => ClaimKeepsSettled(s, e);
      case Cancel(x, now) => TerminateKeepsSettled(s, Next(s, e), x, None, now);
      case Expire(x, now) =>
        TerminateKeepsSettled(s, Next(s, e), x, Some(R.JobError("client_inactive", "client inactive")), now);
      case FinishReport(x, _, _, _) =>
        assert Reporting(x) in s.pending;
        ReportKeepsSettled(s, e);
      case FinishTransfer(x, payload, _, _, _) =>
        assert Transferring(x, payload) in s.pending;
        TransferKeepsSettled(s, e);
      case _ => BeginKeepsSettled(s, e);
    }
  }

  lemma BeginKeepsSettled(s: System, e: Event)
    requires Settled(s) && Enabled(s, e) && Exact(Next(s, e))
    requires e.Create? || e.BeginReport? || e.BeginTransfer? || e.Abandon?
    ensures Settled(Next(s, e))
  {
    if e.Abandon? { PendingShrinks(s.pending, e.handler); }
    forall h | h in Next(s, e).pending && h.Transferring? ensures NotTerminal(Next(s, e), h.id) {
      if h in s.pending { assert NotTerminal(s, h.id); }
    }
  }

  predicate CalmRun(s: System, es: seq<Event>)
    decreases |es|
  {
    es == [] || (Enabled(s, es[0]) && Disciplined(s, es[0]) && Calm(s, es[0]) && CalmRun(Next(s, es[0]), es[1..]))
  }

  lemma StepKeepsTerminal(s: System, e: Event, id: Id)
    requires Settled(s) && Enabled(s, e) && id in s.reg.jobs && R.IsTerminal(StatusOf(s, id))
    ensures id in Next(s, e).reg.jobs && StatusOf(Next(s, e), id) == StatusOf(s, id)
  {
    LeavesTerminalIff(s, e, id);
    if e.Claim? { ClaimEffect(s, e.req, e.now); }
    if e.FinishTransfer? { assert NotTerminal(s, Transferring(e.id, e.payload).id); }
  }

  /** If moreover nothing makes a job terminal inside a transfer request's unlocked window,
      terminal statuses are absorbing. */
  lemma {:induction false} TerminalIsAbsorbing(s: System, es: seq<Event>, id: Id)
    requires Settled(s) && CalmRun(s, es) && id in s.reg.jobs && R.IsTerminal(StatusOf(s, id))
    ensures Valid(s, es) && id in After(s, es).reg.jobs && StatusOf(After(s, es), id) == StatusOf(s, id)
    decreases |es|
  {
    if es != [] {
      StepKeepsSettled(s, es[0]);
      StepKeepsTerminal(s, es[0], id);
      TerminalIsAbsorbing(Next(s, es[0]), es[1..], id);
    }
  }

  lemma {:induction false} CalmRunKeepsSettled(s: System, es: seq<Event>)
    requires Settled(s) && CalmRun(s, es)
    ensures Valid(s, es) && Settled(After(s, es))
    decreases |es|
  {
    if es != [] {
      StepKeepsSettled(s, es[0]);
      CalmRunKeepsSettled(Next(s, es[0]), es[1..]);
    }
  }

  lemma {:induction false} CalmRunAbsorbs(s: System, es: seq<Event>)
    requires Settled(s) && CalmRun(s, es)
    ensures Valid(s, es) && AbsorbsThroughout(s, es)
    decreases |es|
  {
    if es != [] {
      forall id | id in s.reg.jobs && R.IsTerminal(StatusOf(s, id))
        ensures id in Next(s, es[0]).reg.jobs && StatusOf(Next(s, es[0]), id) == StatusOf(s, id)
      {
        StepKeepsTerminal(s, es[0], id);
      }
      StepKeepsSettled(s, es[0]);
      CalmRunAbsorbs(Next(s, es[0]), es[1..]);
    }
  }

  lemma {:induction false} CalmIsDisciplined(s: System, es: seq<Event>)
    requires CalmRun(s, es)
    ensures DisciplinedRun(s, es)
    decreases |es|
  {
    if es != [] { CalmIsDisciplined(Next(s, es[0]), es[1..]); }
  }

  // ---------------------------------------------------------------- why the hypotheses are needed

  const ANYTHING: R.ClaimRequest := R.ClaimRequest([], "", "")

  lemma Unroll(s: System, e: Event, es: seq<Event>)
    requires Enabled(s, e) && Valid(Next(s, e), es)
    ensures Valid(s, [e] + es) && After(s, [e] + es) == After(Next(s, e), es)
  {
    assert ([e] + es)[1..] == es;
  }

  /** A report on a job that is still queued: the job completes, stays in the queue, and is
      then handed to a worker, out of its terminal status. */
  lemma {:induction false} ReportOnQueuedJob() returns (es: seq<Event>)
    ensures Valid(Init(0), es)
    ensures var s := After(Init(0), es);
            "a" in s.reg.jobs && StatusOf(s, "a").Completed? && "a" in s.reg.queue
            && var e := Claim(ANYTHING, 0);
               Enabled(s, e) && "a" in Next(s, e).reg.jobs && StatusOf(Next(s, e), "a").Claimed?
  {
    var e1, e2, e3 := Create("a", "k", "", "", 0), BeginReport("a"), FinishReport("a", R.Completed, None, 0);
    var s1 := Next(Init(0), e1);
    var s2 := Next(s1, e2);
    var s3 := Next(s2, e3);
    Unroll(s2, e3, []);
    Unroll(s1, e2, [e3]);
    Unroll(Init(0), e1, [e2] + [e3]);
    es := [e1] + ([e2] + [e3]);
    assert After(Init(0), es) == s3;
    assert s3.reg.queue == ["a"];
    assert R.FirstClaimable(s3.reg.jobs, s3.reg.queue, 0, ANYTHING) == Some(0);
  }

  /** A disciplined run without cancel or expiry: a completion report that lands in the window
      of a transfer request is undone by the request's second section. */
  lemma {:induction false} ReportInTransferWindow() returns (es: seq<Event>)
    ensures DisciplinedRun(Init(0), es) && Valid(Init(0), es)
    ensures forall n :: 0 <= n < |es| ==> !es[n].Cancel? && !es[n].Expire?
    ensures var s := After(Init(0), es);
            "a" in s.reg.jobs && StatusOf(s, "a").Completed?
            && var e := FinishTransfer("a", true, "payload", "c", 0);
               Enabled(s, e) && "a" in Next(s, e).reg.jobs && StatusOf(Next(s, e), "a").AwaitingPayload?
  {
    var e1, e2 := Create("a", "k", "", "", 0), Claim(ANYTHING, 0);
    var s1, s2 := OneClaimedJob();
    var tail := CompletedInWindow(s2);
    Unroll(s1, e2, tail);
    Unroll(Init(0), e1, [e2] + tail);
    DisciplinedUnroll(s1, e2, tail);
    DisciplinedUnroll(Init(0), e1, [e2] + tail);
    es := [e1] + ([e2] + tail);
  }

  ghost predicate HoldsClaimed(s: System) {
    "a" in s.reg.jobs && StatusOf(s, "a").Claimed? && "a" in s.handed && s.pending == multiset{} && s.clock == 0
  }

  lemma OneClaimedJob() returns (s1: System, s2: System)
    ensures Enabled(Init(0), Create("a", "k", "", "", 0)) && s1 == Next(Init(0), Create("a", "k", "", "", 0))
    ensures Enabled(s1, Claim(ANYTHING, 0)) && s2 == Next(s1, Claim(ANYTHING, 0))
    ensures HoldsClaimed(s2)
  {
    s1 := Next(Init(0), Create("a", "k", "", "", 0));
    assert s1.reg.queue == ["a"];
    assert R.FirstClaimable(s1.reg.jobs, s1.reg.queue, 0, ANYTHING) == Some(0);
    s2 := Next(s1, Claim(ANYTHING, 0));
    assert s2.handed == ["a"];
  }

  lemma CompletedInWindow(s: System) returns (es: seq<Event>)
    requires HoldsClaimed(s)
    ensures DisciplinedRun(s, es) && Valid(s, es)
    ensures forall n :: 0 <= n < |es| ==> !es[n].Cancel? && !es[n].Expire?
    ensures var t := After(s, es);
            "a" in t.reg.jobs && StatusOf(t, "a").Completed?
            && var e := FinishTransfer("a", true, "payload", "c", 0);
               Enabled(t, e) && "a" in Next(t, e).reg.jobs && StatusOf(Next(t, e), "a").AwaitingPayload?
  {
    var e1, e2, e3 := BeginTransfer("a", true), BeginReport("a"), FinishReport("a", R.Completed, None, 0);
    var s1 := Next(s, e1);
    var s2 := Next(s1, e2);
    var s3 := Next(s2, e3);
    Unroll(s2, e3, []);
    Unroll(s1, e2, [e3]);
    Unroll(s, e1, [e2] + [e3]);
    DisciplinedUnroll(s2, e3, []);
    DisciplinedUnroll(s1, e2, [e3]);
    DisciplinedUnroll(s, e1, [e2] + [e3]);
    es := [e1] + ([e2] + [e3]);
    assert After(s, es) == s3;
  }

  lemma DisciplinedUnroll(s: System, e: Event, es: seq<Event>)
    requires Enabled(s, e) && Disciplined(s, e) && DisciplinedRun(Next(s, e), es)
    ensures DisciplinedRun(s, [e] + es)
  {
    assert ([e] + es)[1..] == es;
  }
}
