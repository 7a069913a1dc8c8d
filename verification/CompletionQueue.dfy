/**
  The queue of generation requests (modules/llm/ext/openai/queue.go) and the handlers that wait
  in it (modules/llm/ext/openai/generation_proxy.go).

  Whether a model can be dispatched is asked afresh for every entry of the queue, while workers
  come and go: `can(i, m)` is the answer for model m when entry i is looked at.
*/
module CompletionQueue {

  datatype Queued<I> = Queued(id: I, model: string)

  type Answers = (nat, string) -> bool

  /** The 1-based position of the first entry of that id from place i on; 0 if there is none. */
  function PositionFrom<I(==)>(items: seq<Queued<I>>, id: I, i: nat): (pos: nat)
    requires i <= |items|
    ensures pos == 0 ==> forall j :: i <= j < |items| ==> items[j].id != id
    ensures pos > 0 ==> i < pos <= |items| && items[pos - 1].id == id
    ensures pos > 0 ==> forall j :: i <= j < pos - 1 ==> items[j].id != id
    decreases |items| - i
  {
    if i == |items| then 0 else if items[i].id == id then i + 1 else PositionFrom(items, id, i + 1)
  }

  function PositionOf<I(==)>(items: seq<Queued<I>>, id: I): (pos: nat)
    ensures pos <= |items|
    ensures pos == 0 <==> !Contains(items, id)
    ensures pos > 0 ==> items[pos - 1].id == id && forall i :: 0 <= i < pos - 1 ==> items[i].id != id
  {
    PositionFrom(items, id, 0)
  }

  predicate Contains<I(==)>(items: seq<Queued<I>>, id: I) {
    exists i :: 0 <= i < |items| && items[i].id == id
  }

  /** The queue without the first entry of that id. */
  function Without<I(==)>(items: seq<Queued<I>>, id: I): seq<Queued<I>> {
    var p := PositionOf(items, id);
    if p == 0 then items else items[..p - 1] + items[p..]
  }

  predicate FirstAt<I>(items: seq<Queued<I>>, can: Answers, i: nat) {
    && i < |items| && can(i, items[i].model)
    && forall j :: 0 <= j < i ==> !can(j, items[j].model)
  }

  ghost predicate FirstDispatchable<I>(items: seq<Queued<I>>, id: I, can: Answers) {
    exists i: nat :: FirstAt(items, can, i) && items[i].id == id
  }

  class Queue {
    var items: seq<Queued<string>>
    var cap: int
    var shownLen: int
    var shownCap: int

    /** The metrics show what is there. */
    ghost predicate Valid()
      reads this
    {
      shownLen == |items| && shownCap == cap
    }

    constructor (capacity: int)
      ensures Valid() && items == [] && cap == capacity
    {
      items, cap, shownLen, shownCap := [], capacity, 0, capacity;
    }

    method SetCapacity(n: int)
      modifies this
      ensures Valid() && items == old(items) && cap == n
    {
      cap := n;
      shownCap := n;
      shownLen := |items|;
    }

    method Enter(id: string, model: string) returns (pos: nat, ok: bool)
      requires Valid()
      modifies this
      ensures Valid() && cap == old(cap)
      ensures ok == (|old(items)| < old(cap))
      ensures items == if ok then old(items) + [Queued(id, model)] else old(items)
      ensures pos == if ok then |items| else 0
    {
      if cap <= 0 || |items| >= cap {
        return 0, false;
      }
      items := items + [Queued(id, model)];
      shownLen := |items|;
      return |items|, true;
    }

    method Leave(id: string)
      requires Valid()
      modifies this
      ensures Valid() && cap == old(cap) && items == Without(old(items), id)
    {
      var i := 0;
      while i < |items|
        invariant i <= |items| && items == old(items)
        invariant forall j :: 0 <= j < i ==> items[j].id != id
      {
        if items[i].id == id {
          assert Contains(items, id);
          items := items[..i] + items[i + 1..];
          shownLen := |items|;
          return;
        }
        i := i + 1;
      }
    }

    method Position(id: string) returns (pos: nat)
      ensures pos == PositionOf(items, id)
    {
      var i := 0;
      while i < |items|
        invariant i <= |items|
        invariant forall j :: 0 <= j < i ==> items[j].id != id
      {
        if items[i].id == id {
          assert Contains(items, id);
          return i + 1;
        }
        i := i + 1;
      }
      return 0;
    }

    method IsFirstDispatchable(id: string, can: Answers) returns (first: bool)
      ensures first <==> FirstDispatchable(items, id, can)
    {
      var i := 0;
      while i < |items|
        invariant i <= |items|
        invariant forall j :: 0 <= j < i ==> !can(j, items[j].model)
      {
        if !can(i, items[i].model) {
          i := i + 1;
          continue;
        }
        assert FirstAt(items, can, i);
        return items[i].id == id;
      }
      return false;
    }
  }

  // ---------------------------------------------------------------- one scan of the queue

  predicate Distinct<I(==)>(items: seq<Queued<I>>) {
    forall i, j :: 0 <= i < j < |items| ==> items[i].id != items[j].id
  }

  /** At most one id is first-dispatchable, whatever the answers. */
  lemma {:induction false} OneFirst<I>(items: seq<Queued<I>>, id: I, id': I, can: Answers)
    requires FirstDispatchable(items, id, can) && FirstDispatchable(items, id', can)
    ensures id == id'
  {
    var i: nat :| FirstAt(items, can, i) && items[i].id == id;
    var j: nat :| FirstAt(items, can, j) && items[j].id == id';
  }

  /** Somebody in the queue is first-dispatchable if and only if some answer is yes. */
  lemma {:induction false} SomeFirstIff<I>(items: seq<Queued<I>>, can: Answers)
    ensures (exists i: nat :: i < |items| && can(i, items[i].model))
       <==> (exists id :: FirstDispatchable(items, id, can))
  {
    SomeFirstFrom(items, can, 0);
  }

  lemma {:induction false} SomeFirstFrom<I>(items: seq<Queued<I>>, can: Answers, from: nat)
    requires from <= |items| && forall j :: 0 <= j < from ==> !can(j, items[j].model)
    ensures (exists i: nat :: i < |items| && can(i, items[i].model))
       <==> (exists id :: FirstDispatchable(items, id, can))
    decreases |items| - from
  {
    if from < |items| {
      if can(from, items[from].model) {
        assert FirstAt(items, can, from);
        assert FirstDispatchable(items, items[from].id, can);
      } else {
        SomeFirstFrom(items, can, from + 1);
      }
    }
  }

  /** The answers for a model do not change during the scan. */
  predicate Steady<I>(items: seq<Queued<I>>, can: Answers) {
    forall i, j :: 0 <= i < j < |items| && items[i].model == items[j].model ==>
      can(i, items[i].model) == can(j, items[j].model)
  }

  /** Answers that turn to yes when the scan reaches entry i. */
  function YesFrom(i: nat): Answers {
    (n, m) => n >= i
  }

  lemma SomeScanReaches<I>(items: seq<Queued<I>>, i: nat)
    requires i < |items|
    ensures FirstDispatchable(items, items[i].id, YesFrom(i))
  {
    assert FirstAt(items, YesFrom(i), i);
  }

  // ---------------------------------------------------------------- the handlers that wait

  /** Handlers are numbered in the order of their calls of Enter. */
  datatype Phase =
    | TurnedAway
    | InQueue     // in the wait loop
    | Cleared     // found itself first-dispatchable, is about to try
    | Sent        // dispatched, is about to leave the queue
    | Gone

  datatype Handler = Handler(model: string, phase: Phase)

  datatype State = State(items: seq<Queued<nat>>, cap: int, shown: nat, handlers: seq<Handler>, dispatched: seq<nat>)

  datatype Event =
    | Enter(model: string)
    | Check(h: nat, can: Answers)
    | Dispatch(h: nat, ok: bool)
    | Leave(h: nat)

  predicate InLoop(p: Phase) {
    p.InQueue? || p.Cleared? || p.Sent?
  }

  ghost predicate Enabled(s: State, e: Event) {
    match e
    case Enter(_) => true
    case Check(h, _) => h < |s.handlers| && s.handlers[h].phase.InQueue?
    case Dispatch(h, _) => h < |s.handlers| && s.handlers[h].phase.Cleared?
    case Leave(h) => h < |s.handlers| && (s.handlers[h].phase.InQueue? || s.handlers[h].phase.Sent?)
  }

  function WithPhase(s: State, h: nat, p: Phase): State
    requires h < |s.handlers|
  {
    s.(handlers := s.handlers[h := s.handlers[h].(phase := p)])
  }

  function Entered(s: State, model: string): State {
    var h := |s.handlers|;
    if |s.items| < s.cap
    then s.(items := s.items + [Queued(h, model)], shown := |s.items| + 1,
            handlers := s.handlers + [Handler(model, InQueue)])
    else s.(handlers := s.handlers + [Handler(model, TurnedAway)])
  }

  ghost function Next(s: State, e: Event): State
    requires Enabled(s, e)
  {
    match e
    case Enter(model) => Entered(s, model)
    case Check(h, can) => if FirstDispatchable(s.items, h, can) then WithPhase(s, h, Cleared) else s
    case Dispatch(h, ok) =>
      if ok then WithPhase(s, h, Sent).(dispatched := s.dispatched + [h]) else WithPhase(s, h, InQueue)
    case Leave(h) =>
      WithPhase(s, h, Gone).(items := Without(s.items, h), shown := |Without(s.items, h)|)
  }

  function Init(cap: int): State {
    State([], cap, 0, [], [])
  }

  ghost predicate Valid(s: State, es: seq<Event>)
    decreases |es|
  {
    es == [] || (Enabled(s, es[0]) && Valid(Next(s, es[0]), es[1..]))
  }

  ghost function After(s: State, es: seq<Event>): State
    requires Valid(s, es)
    decreases |es|
  {
    if es == [] then s else After(Next(s, es[0]), es[1..])
  }

  /** The queue holds exactly the handlers in the wait loop, in the order they came. */
  predicate QueueOk(s: State) {
    && (forall i, j :: 0 <= i < j < |s.items| ==> s.items[i].id < s.items[j].id)
    && (forall i :: 0 <= i < |s.items| ==>
          s.items[i].id < |s.handlers| && s.items[i].model == s.handlers[s.items[i].id].model)
    && (forall h :: 0 <= h < |s.handlers| ==> (InLoop(s.handlers[h].phase) <==> Contains(s.items, h)))
  }

  predicate LengthOk(s: State) {
    s.shown == |s.items| && (|s.items| <= s.cap || s.items == [])
  }

  lemma WithoutKeepsOthers(items: seq<Queued<nat>>, h: nat, g: nat)
    requires forall i, j :: 0 <= i < j < |items| ==> items[i].id < items[j].id
    ensures Contains(Without(items, h), g) <==> g != h && Contains(items, g)
  {
    var p := PositionOf(items, h);
    var r := Without(items, h);
    if p > 0 {
      assert forall i :: 0 <= i < |r| ==> r[i] == if i < p - 1 then items[i] else items[i + 1];
      if g != h && Contains(items, g) {
        var i :| 0 <= i < |items| && items[i].id == g;
        assert r[if i < p - 1 then i else i - 1].id == g;
      }
    }
  }

  lemma LeaveKeepsQueue(s: State, h: nat)
    requires QueueOk(s) && Enabled(s, Leave(h))
    ensures QueueOk(Next(s, Leave(h)))
  {
    var s' := Next(s, Leave(h));
    forall g | 0 <= g < |s'.handlers| ensures InLoop(s'.handlers[g].phase) <==> Contains(s'.items, g) {
      WithoutKeepsOthers(s.items, h, g);
    }
  }

  lemma ContainsAppend(items: seq<Queued<nat>>, x: Queued<nat>, g: nat)
    ensures Contains(items + [x], g) <==> Contains(items, g) || x.id == g
  {
    var r := items + [x];
    assert r[|items|] == x;
    if Contains(items, g) {
      var i :| 0 <= i < |items| && items[i].id == g;
      assert r[i].id == g;
    }
  }

  lemma EnterKeepsQueue(s: State, model: string)
    requires QueueOk(s)
    ensures QueueOk(Next(s, Enter(model)))
  {
    var s' := Next(s, Enter(model));
    if |s.items| < s.cap {
      forall g | 0 <= g < |s'.handlers| ensures InLoop(s'.handlers[g].phase) <==> Contains(s'.items, g) {
        ContainsAppend(s.items, Queued(|s.handlers|, model), g);
      }
    }
  }

  lemma StepKeepsQueue(s: State, e: Event)
    requires QueueOk(s) && LengthOk(s) && Enabled(s, e)
    ensures QueueOk(Next(s, e)) && LengthOk(Next(s, e)) && Next(s, e).cap == s.cap
  {
    match e
    case Enter(model) => EnterKeepsQueue(s, model);
    case Leave(h) => LeaveKeepsQueue(s, h);
    case _ =>
  }

  lemma PositionAt(items: seq<Queued<nat>>, i: nat)
    requires i < |items| && forall j, k :: 0 <= j < k < |items| ==> items[j].id < items[k].id
    ensures PositionOf(items, items[i].id) == i + 1
  {
    var p := PositionOf(items, items[i].id);
    assert Contains(items, items[i].id);
  }

  predicate Increasing(items: seq<Queued<nat>>) {
    forall j, k :: 0 <= j < k < |items| ==> items[j].id < items[k].id
  }

  /** r is items without entry q - 1. */
  predicate Skips(r: seq<Queued<nat>>, items: seq<Queued<nat>>, q: nat) {
    && 0 < q <= |items| && |r| == |items| - 1
    && (forall i :: 0 <= i < q - 1 ==> r[i] == items[i])
    && (forall i :: q <= i < |items| ==> r[i - 1] == items[i])
  }

  lemma WithoutSkips(items: seq<Queued<nat>>, g: nat)
    requires Contains(items, g)
    ensures Skips(Without(items, g), items, PositionOf(items, g))
  {
  }

  lemma SkipKeepsOrder(r: seq<Queued<nat>>, items: seq<Queued<nat>>, q: nat)
    requires Increasing(items) && Skips(r, items, q)
    ensures Increasing(r)
  {
    forall j, k | 0 <= j < k < |r| ensures r[j].id < r[k].id {
      assert r[j] == items[if j < q - 1 then j else j + 1];
      assert r[k] == items[if k < q - 1 then k else k + 1];
    }
  }

  lemma PositionAfterSkip(r: seq<Queued<nat>>, items: seq<Queued<nat>>, q: nat, p: nat)
    requires Increasing(items) && Skips(r, items, q) && 0 < p <= |items| && p != q
    ensures PositionOf(r, items[p - 1].id) == if q < p then p - 1 else p
  {
    SkipKeepsOrder(r, items, q);
    var i := if q < p then p - 2 else p - 1;
    assert r[i] == items[p - 1];
    PositionAt(r, i);
  }

  lemma PositionWithout(items: seq<Queued<nat>>, g: nat, h: nat)
    requires Increasing(items) && Contains(items, g) && Contains(items, h) && g != h
    ensures Contains(Without(items, g), h)
    ensures PositionOf(Without(items, g), h) == PositionOf(items, h) - if g < h then 1 else 0
  {
    var q, p := PositionOf(items, g), PositionOf(items, h);
    OrderOfPositions(items, g, h);
    WithoutSkips(items, g);
    PositionAfterSkip(Without(items, g), items, q, p);
  }

  lemma OrderOfPositions(items: seq<Queued<nat>>, g: nat, h: nat)
    requires Increasing(items) && Contains(items, g) && Contains(items, h) && g != h
    ensures var q, p := PositionOf(items, g), PositionOf(items, h);
      0 < p <= |items| && items[p - 1].id == h && p != q && (q < p <==> g < h)
  {
  }

  lemma PositionOnLeave(s: State, g: nat, h: nat)
    requires QueueOk(s) && Enabled(s, Leave(g)) && g != h && Contains(s.items, h)
    ensures Contains(Without(s.items, g), h)
    ensures PositionOf(Without(s.items, g), h) == PositionOf(s.items, h) - if g < h then 1 else 0
  {
    PositionWithout(s.items, g, h);
  }

  lemma PositionOnEnter(s: State, model: string, h: nat)
    requires QueueOk(s) && Contains(s.items, h)
    ensures PositionOf(Next(s, Enter(model)).items, h) == PositionOf(s.items, h)
  {
    var s' := Next(s, Enter(model));
    EnterKeepsQueue(s, model);
    assert s'.items[PositionOf(s.items, h) - 1].id == h;
    PositionAt(s'.items, PositionOf(s.items, h) - 1);
  }

  /** A waiter's position falls by one when somebody ahead leaves, and never changes otherwise. */
  lemma {:induction false} PositionNeverGrows(s: State, e: Event, h: nat)
    requires QueueOk(s) && Enabled(s, e) && Contains(s.items, h) && e != Leave(h)
    ensures Contains(Next(s, e).items, h)
    ensures PositionOf(Next(s, e).items, h) == PositionOf(s.items, h) - if e.Leave? && e.h < h then 1 else 0
  {
    match e
    case Enter(model) => PositionOnEnter(s, model, h);
    case Leave(g) => PositionOnLeave(s, g, h);
    case _ =>
  }

  // ---------------------------------------------------------------- no overtaking

  /** Every check of the run sees steady answers. */
  ghost predicate AllSteady(s: State, es: seq<Event>)
    requires Valid(s, es)
    decreases |es|
  {
    es != [] ==> (es[0].Check? ==> Steady(s.items, es[0].can)) && AllSteady(Next(s, es[0]), es[1..])
  }

  /** No earlier handler for d's model is in the queue. */
  predicate NoneAhead(s: State, d: nat) {
    && d < |s.handlers|
    && forall h :: 0 <= h < d && s.handlers[h].model == s.handlers[d].model ==> !InLoop(s.handlers[h].phase)
  }

  predicate TurnOk(s: State) {
    && (forall d :: 0 <= d < |s.handlers| && s.handlers[d].phase.Cleared? ==> NoneAhead(s, d))
    && (forall k :: 0 <= k < |s.dispatched| ==> NoneAhead(s, s.dispatched[k]))
    && (forall k :: 0 <= k < |s.dispatched| ==>
          s.handlers[s.dispatched[k]].phase.Sent? || s.handlers[s.dispatched[k]].phase.Gone?)
  }

  predicate OrderOk(s: State)
    requires forall k :: 0 <= k < |s.dispatched| ==> s.dispatched[k] < |s.handlers|
  {
    forall k, l ::
      0 <= k < l < |s.dispatched| && s.handlers[s.dispatched[k]].model == s.handlers[s.dispatched[l]].model ==>
        s.dispatched[k] < s.dispatched[l]
  }

  lemma NoneAheadStays(s: State, e: Event, d: nat)
    requires Enabled(s, e) && NoneAhead(s, d)
    ensures NoneAhead(Next(s, e), d)
  {
  }

  lemma NotQueuedAhead(s: State, i: nat, can: Answers, g: nat)
    requires QueueOk(s) && FirstAt(s.items, can, i) && Steady(s.items, can)
    requires g < s.items[i].id && s.handlers[g].model == s.items[i].model
    ensures !Contains(s.items, g)
  {
    forall j | 0 <= j < |s.items| ensures s.items[j].id != g {
      if j < i { assert !can(j, s.items[j].model); }
    }
  }

  lemma ClearedHasNoneAhead(s: State, h: nat, can: Answers)
    requires QueueOk(s) && h < |s.handlers| && FirstDispatchable(s.items, h, can) && Steady(s.items, can)
    ensures NoneAhead(s, h)
  {
    var i: nat :| FirstAt(s.items, can, i) && s.items[i].id == h;
    forall g | 0 <= g < h && s.handlers[g].model == s.handlers[h].model ensures !Contains(s.items, g) {
      NotQueuedAhead(s, i, can, g);
    }
  }

  lemma StepKeepsTurns(s: State, e: Event)
    requires QueueOk(s) && TurnOk(s) && Enabled(s, e) && (e.Check? ==> Steady(s.items, e.can))
    ensures TurnOk(Next(s, e))
  {
    var s' := Next(s, e);
    forall d | 0 <= d < |s'.handlers| && s'.handlers[d].phase.Cleared? ensures NoneAhead(s', d) {
      if e.Check? && e.h == d {
        if !s.handlers[d].phase.Cleared? { ClearedHasNoneAhead(s, d, e.can); }
      }
      NoneAheadStays(s, e, d);
    }
    forall k | 0 <= k < |s'.dispatched| ensures NoneAhead(s', s'.dispatched[k]) {
      NoneAheadStays(s, e, s'.dispatched[k]);
    }
  }

  lemma StepKeepsOrder(s: State, e: Event)
    requires TurnOk(s) && OrderOk(s) && Enabled(s, e)
    ensures var s' := Next(s, e);
      (forall k :: 0 <= k < |s'.dispatched| ==> s'.dispatched[k] < |s'.handlers|) && OrderOk(s')
  {
    if e.Dispatch? && e.ok {
      forall k | 0 <= k < |s.dispatched| && s.handlers[s.dispatched[k]].model == s.handlers[e.h].model
        ensures s.dispatched[k] < e.h
      {
        assert NoneAhead(s, s.dispatched[k]);
      }
    }
  }

  lemma {:induction false} RunKeepsQueue(s: State, es: seq<Event>)
    requires Valid(s, es) && QueueOk(s) && LengthOk(s)
    ensures QueueOk(After(s, es)) && LengthOk(After(s, es)) && After(s, es).cap == s.cap
    decreases |es|
  {
    if es != [] {
      StepKeepsQueue(s, es[0]);
      RunKeepsQueue(Next(s, es[0]), es[1..]);
    }
  }

  lemma {:induction false} RunKeepsTurns(s: State, es: seq<Event>)
    requires Valid(s, es) && AllSteady(s, es)
    requires QueueOk(s) && LengthOk(s) && TurnOk(s) && OrderOk(s)
    ensures TurnOk(After(s, es)) && OrderOk(After(s, es))
    decreases |es|
  {
    if es != [] {
      StepKeepsQueue(s, es[0]);
      StepKeepsTurns(s, es[0]);
      StepKeepsOrder(s, es[0]);
      RunKeepsTurns(Next(s, es[0]), es[1..]);
    }
  }

  lemma InitOk(cap: int)
    ensures var s := Init(cap); QueueOk(s) && LengthOk(s) && TurnOk(s) && OrderOk(s)
  {
  }

  /** In every run, whatever the answers: the queue is the set of waiting handlers in order of
      arrival, within the capacity, and its length is the one shown. */
  lemma {:induction false} QueueInEveryRun(cap: int, es: seq<Event>)
    requires Valid(Init(cap), es)
    ensures var s := After(Init(cap), es); QueueOk(s) && LengthOk(s) && s.cap == cap
  {
    InitOk(cap);
    RunKeepsQueue(Init(cap), es);
  }

  /** In every run whose answers are steady during each scan, handlers for one model are
      dispatched in the order in which they entered, and none while an earlier one waits. */
  lemma {:induction false} FairInEveryRun(cap: int, es: seq<Event>)
    requires Valid(Init(cap), es) && AllSteady(Init(cap), es)
    ensures TurnOk(After(Init(cap), es)) && OrderOk(After(Init(cap), es))
  {
    InitOk(cap);
    RunKeepsTurns(Init(cap), es);
  }

  /** In every run a request is turned away if and only if the queue is full, or has no room at
      all; otherwise it is the last to wait. */
  lemma {:induction false} TurnedAwayIffFull(cap: int, es: seq<Event>, model: string)
    requires Valid(Init(cap), es)
    ensures var s := After(Init(cap), es);
            var s', h := Next(s, Enter(model)), |s.handlers|;
      && |s'.handlers| == h + 1 && s'.handlers[h].model == model
      && (s'.handlers[h].phase.TurnedAway? <==> cap <= 0 || |s.items| == cap)
      && (!s'.handlers[h].phase.TurnedAway? ==> s'.items == s.items + [Queued(h, model)])
  {
    QueueInEveryRun(cap, es);
  }

  // ---------------------------------------------------------------- exactly when overtaking is possible

  /** The handler is in the queue and not yet dispatched. */
  predicate Waits(s: State, h: nat) {
    h < |s.handlers| && (s.handlers[h].phase.InQueue? || s.handlers[h].phase.Cleared?)
  }

  predicate TwoWait(s: State, d: nat, h: nat) {
    h < d && Waits(s, h) && Waits(s, d) && s.handlers[h].model == s.handlers[d].model
  }

  predicate NoArrivals(es: seq<Event>) {
    forall n :: 0 <= n < |es| ==> !es[n].Enter?
  }

  /** Between s and s' handler d was dispatched, past handler h for the same model. */
  predicate Overtakes(s: State, s': State, d: nat, h: nat) {
    && h < d < |s'.handlers| && s'.handlers[h].model == s'.handlers[d].model
    && d in s'.dispatched && d !in s.dispatched && Waits(s', h)
  }

  /** Who was dispatched no longer waits. */
  predicate SentOk(s: State) {
    forall d :: d in s.dispatched ==> d < |s.handlers| && !Waits(s, d)
  }

  lemma {:induction false} RunKeepsSent(s: State, es: seq<Event>)
    requires Valid(s, es) && SentOk(s)
    ensures SentOk(After(s, es))
    decreases |es|
  {
    if es != [] {
      RunKeepsSent(Next(s, es[0]), es[1..]);
    }
  }

  lemma {:induction false} WaitedBefore(s: State, es: seq<Event>, h: nat)
    requires Valid(s, es) && NoArrivals(es)
    ensures |After(s, es).handlers| == |s.handlers|
    ensures Waits(After(s, es), h) ==> Waits(s, h)
    ensures h < |s.handlers| ==> After(s, es).handlers[h].model == s.handlers[h].model
    ensures h < |s.handlers| && h in After(s, es).dispatched && h !in s.dispatched ==> Waits(s, h)
    decreases |es|
  {
    if es != [] {
      assert !es[0].Enter?;
      assert forall n :: 0 <= n < |es[1..]| ==> es[1..][n] == es[n + 1];
      WaitedBefore(Next(s, es[0]), es[1..], h);
    }
  }

  /** More events, none of them an arrival, lead from s to d overtaking h. */
  ghost predicate LeadsToOvertaking(s: State, more: seq<Event>, d: nat, h: nat) {
    Valid(s, more) && NoArrivals(more) && Overtakes(s, After(s, more), d, h)
  }

  lemma SendLater(s: State, d: nat, h: nat)
    requires SentOk(s) && TwoWait(s, d, h) && s.handlers[d].phase.Cleared?
    ensures LeadsToOvertaking(s, [Dispatch(d, true)], d, h)
  {
    var send := Dispatch(d, true);
    assert [send][1..] == [];
    assert Valid(Next(s, send), []) && After(s, [send]) == Next(s, send);
    assert d !in s.dispatched;
  }

  /** Two handlers for one model that wait: the later can be dispatched before the earlier. */
  lemma Overtake(s: State, d: nat, h: nat) returns (more: seq<Event>)
    requires QueueOk(s) && SentOk(s) && TwoWait(s, d, h)
    ensures LeadsToOvertaking(s, more, d, h)
  {
    if s.handlers[d].phase.Cleared? {
      SendLater(s, d, h);
      more := [Dispatch(d, true)];
    } else {
      var i :| 0 <= i < |s.items| && s.items[i].id == d;
      SomeScanReaches(s.items, i);
      var check := Check(d, YesFrom(i));
      var s1 := Next(s, check);
      assert s1 == WithPhase(s, d, Cleared);
      SendLater(s1, d, h);
      var send := [Dispatch(d, true)];
      more := [check] + send;
      assert more[1..] == send;
      assert After(s, more) == After(s1, send);
    }
  }

  /** The exact condition: after any run, a later request can be dispatched past an earlier one
      for its model, without anybody else arriving, if and only if two requests for one model
      wait. */
  lemma {:induction false} RunCanOvertakeIff(cap: int, es: seq<Event>, d: nat, h: nat)
    requires Valid(Init(cap), es)
    ensures var s := After(Init(cap), es);
      (exists more :: LeadsToOvertaking(s, more, d, h)) <==> TwoWait(s, d, h)
  {
    var s := After(Init(cap), es);
    QueueInEveryRun(cap, es);
    RunKeepsSent(Init(cap), es);
    if TwoWait(s, d, h) {
      var more := Overtake(s, d, h);
    }
    forall more | LeadsToOvertaking(s, more, d, h) ensures TwoWait(s, d, h) {
      WaitedBefore(s, more, d);
      WaitedBefore(s, more, h);
    }
  }

  lemma Then(es: seq<Event>, cap: int, e: Event) returns (es': seq<Event>)
    requires Valid(Init(cap), es) && Enabled(After(Init(cap), es), e)
    ensures Valid(Init(cap), es') && After(Init(cap), es') == Next(After(Init(cap), es), e)
  {
    es' := es + [e];
    ThenValid(Init(cap), es, e);
  }

  lemma {:induction false} ThenValid(s: State, es: seq<Event>, e: Event)
    requires Valid(s, es) && Enabled(After(s, es), e)
    ensures Valid(s, es + [e]) && After(s, es + [e]) == Next(After(s, es), e)
    decreases |es|
  {
    if es == [] {
      assert (es + [e])[1..] == [];
    } else {
      ThenValid(Next(s, es[0]), es[1..], e);
      assert (es + [e])[1..] == es[1..] + [e];
    }
  }

  /** A worker that becomes free while the queue is scanned lets a later request for the same
      model go ahead. */
  lemma {:induction false} OvertakingRun() returns (es: seq<Event>)
    ensures Valid(Init(2), es)
    ensures var s := After(Init(2), es);
      && s.dispatched == [1] && Contains(s.items, 0) && |s.handlers| == 2 && s.handlers[0].model == s.handlers[1].model
  {
    var can: Answers := (i, m) => i > 0;
    es := [];
    es := Then(es, 2, Enter("m"));
    es := Then(es, 2, Enter("m"));
    var s := After(Init(2), es);
    assert FirstAt(s.items, can, 1) && s.items[1].id == 1;
    es := Then(es, 2, Check(1, can));
    es := Then(es, 2, Dispatch(1, true));
    assert After(Init(2), es).items[0].id == 0;
  }
}
