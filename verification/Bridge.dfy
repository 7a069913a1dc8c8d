/**
  Correlation of requests and replies over one bridge session
  (modules/mcp/agent/internal/mcpbridge/bridge.go and idmap.go).

  A reply channel has room for one reply.  Sending on a closed channel and closing one twice
  are panics in Go, so each channel must see at most one send or close; the right to it is
  handed over by deleting the entry of the `pending` map.  The reader, any number of callers,
  their time-outs and the teardown of the session run beside each other, one lock section or
  one channel operation at a time.
*/
module Bridge {
  import opened Wrappers
  import opened GoInts
  import Text

  /** The correlation id of the c-th call of Alloc: a 64-bit counter, printed. */
  function Id(c: nat): string {
    Text.Decimal(c % TWO_64)
  }

  /** Two allocations get the same id if and only if they are a multiple of 2^64 apart. */
  lemma {:induction false} SameIdIff(c: nat, d: nat)
    ensures Id(c) == Id(d) <==> c % TWO_64 == d % TWO_64
  {
    if Id(c) == Id(d) {
      Text.DecimalInjective(c % TWO_64, d % TWO_64);
    }
  }

  // ---------------------------------------------------------------- the lock sections

  function Registered<T>(pending: map<string, T>, max: nat, id: string, ch: T): map<string, T> {
    if |pending| >= max then pending else pending[id := ch]
  }

  function Removed<T>(pending: map<string, T>, id: string): map<string, T> {
    pending - {id}
  }

  class IdMapper {
    var next: nat
    var store: map<string, string>

    ghost predicate Valid()
      reads this
    {
      next < TWO_64
    }

    constructor ()
      ensures Valid() && next == 0 && store == map[]
    {
      next, store := 0, map[];
    }

    method Alloc(jsonId: string) returns (id: string)
      requires Valid()
      modifies this
      ensures Valid() && next == (old(next) + 1) % TWO_64
      ensures id == Id(old(next)) && store == old(store)[id := jsonId]
    {
      id := Text.Decimal(next);
      next := (next + 1) % TWO_64;
      store := store[id := jsonId];
    }

    method Resolve(corrId: string) returns (jsonId: Option<string>)
      modifies this
      ensures next == old(next) && store == old(store) - {corrId}
      ensures jsonId == if corrId in old(store) then Some(old(store)[corrId]) else None
    {
      jsonId := None;
      if corrId in store {
        jsonId := Some(store[corrId]);
        store := store - {corrId};
      }
    }
  }

  class ReplyChannel {
    var buffered: Option<string>
    var closed: bool

    constructor ()
      ensures buffered == None && !closed
    {
      buffered, closed := None, false;
    }

    method Send(payload: string)
      requires !closed && buffered == None
      modifies this
      ensures !closed && buffered == Some(payload)
    {
      buffered := Some(payload);
    }

    method Close()
      requires !closed
      modifies this
      ensures closed && buffered == old(buffered)
    {
      closed := true;
    }
  }

  class Session {
    var pending: map<string, ReplyChannel>
    const maxInflight: nat

    /** Every pending channel is open, empty, and pending once. */
    ghost predicate Valid()
      reads this, pending.Values
    {
      && |pending| <= maxInflight
      && (forall id :: id in pending ==> !pending[id].closed && pending[id].buffered == None)
      && (forall id, id' :: id in pending && id' in pending && pending[id] == pending[id'] ==> id == id')
    }

    constructor (maxInflight: nat)
      ensures Valid() && this.maxInflight == maxInflight && pending == map[]
    {
      this.maxInflight := maxInflight;
      pending := map[];
    }

    method Register(id: string, ch: ReplyChannel) returns (ok: bool)
      requires Valid() && ch !in pending.Values && !ch.closed && ch.buffered == None
      modifies this
      ensures Valid() && ok == (|old(pending)| < maxInflight)
      ensures pending == Registered(old(pending), maxInflight, id, ch)
    {
      if |pending| >= maxInflight {
        return false;
      }
      pending := pending[id := ch];
      ok := true;
    }

    /** The lock section of the response case: the reader takes the entry. */
    method Take(id: string) returns (ch: Option<ReplyChannel>)
      requires Valid()
      modifies this
      ensures Valid() && pending == Removed(old(pending), id)
      ensures ch == if id in old(pending) then Some(old(pending)[id]) else None
      ensures ch.Some? ==> ch.value !in pending.Values && !ch.value.closed && ch.value.buffered == None
    {
      ch := None;
      if id in pending {
        ch := Some(pending[id]);
        SmallerMap(pending, id);
      }
      pending := pending - {id};
    }

    method Unregister(id: string)
      requires Valid()
      modifies this, pending.Values
      ensures Valid() && pending == Removed(old(pending), id)
      ensures forall i :: i in old(pending) ==> old(pending)[i].closed == (i == id) && old(pending)[i].buffered == None
    {
      var p := Take(id);
      if p.Some? {
        p.value.Close();
      }
    }

    /** The response case: a reply for an id that nobody waits for is dropped. */
    method Respond(id: string, payload: string)
      requires Valid()
      modifies this, pending.Values
      ensures Valid() && pending == Removed(old(pending), id)
      ensures forall i :: i in old(pending) ==>
        !old(pending)[i].closed && old(pending)[i].buffered == if i == id then Some(payload) else None
    {
      var p := Take(id);
      if p.Some? {
        p.value.Send(payload);
      }
    }

    /** The end of the read loop: each channel that is still pending is closed, once. */
    method Teardown()
      requires Valid()
      modifies this, pending.Values
      ensures Valid() && pending == map[]
      ensures forall i :: i in old(pending) ==> old(pending)[i].closed && old(pending)[i].buffered == None
    {
      ghost var was := pending;
      while pending != map[]
        invariant Valid() && pending.Values <= was.Values && pending.Keys <= was.Keys
        invariant forall i :: i in was ==> if i in pending then pending[i] == was[i] else Spent(was[i])
        decreases |pending|
      {
        var id :| id in pending;
        SmallerMap(pending, id);
        Unregister(id);
      }
    }
  }

  predicate Spent(ch: ReplyChannel)
    reads ch
  {
    ch.closed && ch.buffered == None
  }

  lemma SmallerMap<T>(m: map<string, T>, id: string)
    requires id in m
    ensures |m - {id}| == |m| - 1
  {
    assert m == (m - {id})[id := m[id]];
  }

  // ---------------------------------------------------------------- callers and reader together

  datatype Outcome = Reply(payload: string) | SessionClosed | TimedOut | Backpressure

  /** Where a call of Forward is. */
  datatype Phase =
    | Allocated                // has its id and its channel
    | Refused                  // returned: too many pending
    | Entered                  // has its entry
    | Waiting                  // has sent its frame
    | Leaving(o: Outcome)      // is about to delete its entry
    | Closing(o: Outcome)      // found its entry and is about to close the channel
    | Resolving(o: Outcome)    // is about to forget its id
    | Returned(o: Outcome)

  /** A channel, with how often it was sent on and closed. */
  datatype Chan = Chan(buffered: Option<string>, sends: nat, closes: nat)

  datatype Reader = Reading | Holding(c: nat, payload: string) | Dead

  /** Call number c made channel number c; `frames` are the replies that arrived. */
  datatype State = State(
    max: nat,
    next: nat,
    store: map<string, string>,
    pending: map<string, nat>,
    phases: seq<Phase>,
    chans: seq<Chan>,
    reader: Reader,
    frames: set<(string, string)>)

  datatype Event =
    | Call(jsonId: string)
    | Register(c: nat)
    | SendFrame(c: nat, room: bool)
    | Receive(c: nat)
    | Cancel(c: nat)
    | Unregister(c: nat)
    | Close(c: nat)
    | Resolve(c: nat)
    | Response(id: string, payload: string)
    | Deliver
    | Fail

  predicate Enabled(s: State, e: Event) {
    match e
    case Call(_) => true
    case Response(_, _) => s.reader.Reading?
    case Deliver => s.reader.Holding? && s.reader.c < |s.chans|
    case Fail => s.reader.Reading?
    case _ => e.c < |s.phases| && |s.chans| == |s.phases| && Ready(s.phases[e.c], s.chans[e.c], e)
  }

  predicate Ready(p: Phase, ch: Chan, e: Event) {
    match e
    case Register(_) => p.Allocated?
    case SendFrame(_, _) => p.Entered?
    case Receive(_) => p.Waiting? && (ch.buffered.Some? || ch.closes > 0)
    case Cancel(_) => p.Waiting?
    case Unregister(_) => p.Leaving?
    case Close(_) => p.Closing?
    case Resolve(_) => p.Resolving?
    case _ => false
  }

  /** Forward forgets its id only when it got as far as waiting. */
  function Unentered(o: Outcome): Phase {
    if o.Backpressure? then Returned(o) else Resolving(o)
  }

  function WithPhase(s: State, c: nat, p: Phase): State
    requires c < |s.phases|
  {
    s.(phases := s.phases[c := p])
  }

  function WithChan(s: State, c: nat, ch: Chan): State
    requires c < |s.chans|
  {
    s.(chans := s.chans[c := ch])
  }

  function Received(s: State, c: nat): State
    requires c < |s.phases| && c < |s.chans|
  {
    var ch := s.chans[c];
    match ch.buffered
    case Some(payload) => WithPhase(WithChan(s, c, ch.(buffered := None)), c, Leaving(Reply(payload)))
    case None => WithPhase(s, c, Leaving(SessionClosed))
  }

  function CloseAll(chans: seq<Chan>, closing: set<nat>): seq<Chan> {
    seq(|chans|, c requires 0 <= c < |chans| => if c in closing then Closed(chans[c]) else chans[c])
  }

  function Closed(ch: Chan): Chan {
    ch.(closes := ch.closes + 1)
  }

  function Next(s: State, e: Event): State
    requires Enabled(s, e)
  {
    match e
    case Call(jsonId) =>
      s.(next := (s.next + 1) % TWO_64, store := s.store[Id(s.next) := jsonId],
         phases := s.phases + [Allocated], chans := s.chans + [Chan(None, 0, 0)])
    case Register(c) =>
      WithPhase(s.(pending := Registered(s.pending, s.max, Id(c), c)), c,
        if |s.pending| >= s.max then Refused else Entered)
    case SendFrame(c, room) => WithPhase(s, c, if room then Waiting else Leaving(Backpressure))
    case Receive(c) => Received(s, c)
    case Cancel(c) => WithPhase(s, c, Leaving(TimedOut))
    case Unregister(c) =>
      WithPhase(s.(pending := Removed(s.pending, Id(c))), c,
        if Id(c) in s.pending then Closing(s.phases[c].o) else Unentered(s.phases[c].o))
    case Close(c) => WithPhase(WithChan(s, c, Closed(s.chans[c])), c, Unentered(s.phases[c].o))
    case Resolve(c) => WithPhase(s.(store := s.store - {Id(c)}), c, Returned(s.phases[c].o))
    case Response(id, payload) =>
      s.(reader := if id in s.pending then Holding(s.pending[id], payload) else Reading,
         pending := Removed(s.pending, id), frames := s.frames + {(id, payload)})
    case Deliver =>
      var ch := s.chans[s.reader.c];
      WithChan(s, s.reader.c, Chan(Some(s.reader.payload), ch.sends + 1, ch.closes)).(reader := Reading)
    case Fail =>
      s.(reader := Dead, pending := map[], chans := CloseAll(s.chans, s.pending.Values))
  }

  function Init(max: nat): State {
    State(max, 0, map[], map[], [], [], Reading, {})
  }

  predicate Valid(s: State, es: seq<Event>)
    decreases |es|
  {
    es == [] || (Enabled(s, es[0]) && Valid(Next(s, es[0]), es[1..]))
  }

  function After(s: State, es: seq<Event>): State
    requires Valid(s, es)
    decreases |es|
  {
    if es == [] then s else After(Next(s, es[0]), es[1..])
  }

  // ---------------------------------------------------------------- what every step keeps

  /** All that concerns one call. */
  datatype Local = Local(phase: Phase, ch: Chan, pend: bool, held: Option<string>, stored: bool, dead: bool)

  function LocalOf(s: State, c: nat): Local
    requires c < |s.phases| && c < |s.chans|
  {
    Local(s.phases[c], s.chans[c], Id(c) in s.pending,
      if s.reader.Holding? && s.reader.c == c then Some(s.reader.payload) else None, Id(c) in s.store, s.reader.Dead?)
  }

  function One(b: bool): nat {
    if b then 1 else 0
  }

  /** Operations done on a call's channel, and rights to do one. */
  function Rights(v: Local): nat {
    v.ch.sends + v.ch.closes + One(v.pend) + One(v.held.Some?) + One(v.phase.Closing?)
  }

  predicate HasOutcome(p: Phase, o: Outcome) {
    p == Leaving(o) || p == Closing(o) || p == Resolving(o) || p == Returned(o)
  }

  predicate GotReply(p: Phase) {
    (p.Leaving? || p.Closing? || p.Resolving? || p.Returned?) && p.o.Reply?
  }

  predicate RightsOk(v: Local) {
    && Rights(v) == (if v.phase.Allocated? || v.phase.Refused? then 0 else 1)
    && (v.pend ==> v.phase.Entered? || v.phase.Waiting? || v.phase.Leaving?)
  }

  predicate PayloadOk(v: Local, id: string, frames: set<(string, string)>) {
    && (v.held.Some? ==> (id, v.held.value) in frames)
    && (v.ch.buffered.Some? ==> (id, v.ch.buffered.value) in frames && v.ch.sends == 1)
    && (GotReply(v.phase) ==> (id, v.phase.o.payload) in frames)
    && (v.ch.sends == 1 <==> v.ch.buffered.Some? || GotReply(v.phase))
    && !(v.ch.buffered.Some? && GotReply(v.phase))
  }

  predicate ExitOk(v: Local) {
    && (v.ch.closes > 0 && (v.phase.Entered? || v.phase.Waiting?) ==> v.dead)
    && (HasOutcome(v.phase, SessionClosed) ==> v.dead && v.ch.closes == 1)
    && (v.stored <==> !(v.phase.Returned? && !v.phase.o.Backpressure?))
    && (v.phase.Resolving? ==> !v.phase.o.Backpressure?)
  }

  predicate LocalOk(v: Local, id: string, frames: set<(string, string)>) {
    RightsOk(v) && PayloadOk(v, id, frames) && ExitOk(v)
  }

  predicate CallOk(s: State, c: nat)
    requires c < |s.phases| && c < |s.chans|
  {
    LocalOk(LocalOf(s, c), Id(c), s.frames)
  }

  predicate CallsOk(s: State)
    requires |s.phases| == |s.chans|
  {
    forall c :: 0 <= c < |s.phases| ==> CallOk(s, c)
  }

  predicate PendingOk(s: State) {
    && |s.pending| <= s.max
    && (forall id :: id in s.pending ==> s.pending[id] < |s.phases| && id == Id(s.pending[id]))
  }

  ghost predicate Inv(s: State) {
    && |s.phases| <= TWO_64 && ShapeOk(s)
    && PendingOk(s)
    && StoreOk(s)
    && CallsOk(s)
  }

  predicate ShapeOk(s: State) {
    && |s.phases| == |s.chans| && s.next == |s.phases| % TWO_64
    && (s.reader.Holding? ==> s.reader.c < |s.phases|)
  }

  ghost predicate StoreOk(s: State) {
    forall id :: id in s.store ==> Allotted(s, id)
  }

  ghost predicate Allotted(s: State, id: string) {
    exists c: nat :: c < |s.phases| && id == Id(c)
  }

  lemma IdsDiffer(c: nat, d: nat)
    requires c < TWO_64 && d < TWO_64 && c != d
    ensures Id(c) != Id(d)
  {
    SameIdIff(c, d);
  }

  predicate OwnEvent(e: Event) {
    !e.Call? && !e.Response? && !e.Deliver? && !e.Fail?
  }

  lemma OtherCall(s: State, e: Event, c: nat)
    requires Inv(s) && Enabled(s, e) && OwnEvent(e) && c < |s.phases| && c != e.c
    ensures CallOk(Next(s, e), c)
  {
    IdsDiffer(c, e.c);
    assert CallOk(s, c);
    assert LocalOf(Next(s, e), c) == LocalOf(s, c);
  }

  lemma OwnRights(s: State, e: Event)
    requires ShapeOk(s) && Enabled(s, e) && OwnEvent(e) && CallOk(s, e.c)
    ensures RightsOk(LocalOf(Next(s, e), e.c))
  {
  }

  lemma OwnPayload(s: State, e: Event)
    requires ShapeOk(s) && Enabled(s, e) && OwnEvent(e) && CallOk(s, e.c)
    ensures PayloadOk(LocalOf(Next(s, e), e.c), Id(e.c), s.frames)
  {
  }

  lemma OwnExit(s: State, e: Event)
    requires ShapeOk(s) && Enabled(s, e) && OwnEvent(e) && CallOk(s, e.c)
    ensures ExitOk(LocalOf(Next(s, e), e.c))
  {
  }

  lemma OwnCall(s: State, e: Event)
    requires Inv(s) && Enabled(s, e) && OwnEvent(e)
    ensures CallOk(Next(s, e), e.c)
  {
    assert CallOk(s, e.c);
    OwnRights(s, e);
    OwnPayload(s, e);
    OwnExit(s, e);
    FramesKept(s, e);
  }

  lemma FramesKept(s: State, e: Event)
    requires Enabled(s, e) && OwnEvent(e)
    ensures Next(s, e).frames == s.frames
  {
  }

  lemma ReaderCall(s: State, e: Event, c: nat)
    requires Inv(s) && Enabled(s, e) && (e.Response? || e.Deliver?) && c < |s.phases|
    ensures CallOk(Next(s, e), c)
  {
    assert CallOk(s, c);
    if e.Response? && e.id in s.pending && s.pending[e.id] != c {
      IdsDiffer(c, s.pending[e.id]);
    }
  }

  lemma FailCall(s: State, c: nat)
    requires Inv(s) && Enabled(s, Fail) && c < |s.phases|
    ensures CallOk(Next(s, Fail), c)
  {
    assert CallOk(s, c);
    if Id(c) in s.pending {
      if s.pending[Id(c)] != c { IdsDiffer(c, s.pending[Id(c)]); }
    }
  }

  lemma OldCall(s: State, jsonId: string, c: nat)
    requires Inv(s) && |s.phases| < TWO_64 && c < |s.phases|
    ensures CallOk(Next(s, Call(jsonId)), c)
  {
    assert CallOk(s, c);
    OldLocal(s, jsonId, c);
  }

  lemma OldLocal(s: State, jsonId: string, c: nat)
    requires ShapeOk(s) && |s.phases| < TWO_64 && c < |s.phases|
    ensures LocalOf(Next(s, Call(jsonId)), c) == LocalOf(s, c)
  {
    IdsDiffer(c, |s.phases|);
  }

  lemma NewLocal(s: State, jsonId: string)
    requires Inv(s) && |s.phases| < TWO_64
    ensures LocalOf(Next(s, Call(jsonId)), |s.phases|)
         == Local(Allocated, Chan(None, 0, 0), false, None, true, s.reader.Dead?)
  {
    NotPending(s, |s.phases|);
  }

  lemma NewCall(s: State, jsonId: string)
    requires Inv(s) && |s.phases| < TWO_64
    ensures CallOk(Next(s, Call(jsonId)), |s.phases|)
  {
    NewLocal(s, jsonId);
  }

  lemma NotPending(s: State, n: nat)
    requires Inv(s) && |s.phases| <= n < TWO_64
    ensures Id(n) !in s.pending
  {
    if Id(n) in s.pending { IdsDiffer(n, s.pending[Id(n)]); }
  }

  lemma StepKeepsCall(s: State, e: Event, c: nat)
    requires Inv(s) && Enabled(s, e) && c < |s.phases|
    requires e.Call? ==> |s.phases| < TWO_64
    ensures CallOk(Next(s, e), c)
  {
    match e
    case Call(j) => OldCall(s, j, c);
    case Response(_, _) => ReaderCall(s, e, c);
    case Deliver => ReaderCall(s, e, c);
    case Fail => FailCall(s, c);
    case _ => if c == e.c { OwnCall(s, e); } else { OtherCall(s, e, c); }
  }

  lemma StepKeepsCalls(s: State, e: Event)
    requires Inv(s) && Enabled(s, e) && |Next(s, e).phases| <= TWO_64
    ensures CallsOk(Next(s, e))
  {
    StepCounts(s, e);
    forall c | 0 <= c < |Next(s, e).phases| ensures CallOk(Next(s, e), c) {
      if c < |s.phases| { StepKeepsCall(s, e, c); } else { NewCall(s, e.jsonId); }
    }
  }

  lemma RegisterKeepsPending(s: State, c: nat)
    requires ShapeOk(s) && PendingOk(s) && Enabled(s, Register(c))
    ensures PendingOk(Next(s, Register(c)))
  {
  }

  lemma FewerPending<T>(pending: map<string, T>, id: string)
    ensures |Removed(pending, id)| <= |pending|
  {
    if id in pending {
      SmallerMap(pending, id);
    } else {
      assert Removed(pending, id) == pending;
    }
  }

  lemma RemovalKeepsPending(s: State, e: Event)
    requires ShapeOk(s) && PendingOk(s) && Enabled(s, e) && (e.Unregister? || e.Response?)
    ensures PendingOk(Next(s, e))
  {
    FewerPending(s.pending, if e.Unregister? then Id(e.c) else e.id);
  }

  lemma StepKeepsPending(s: State, e: Event)
    requires ShapeOk(s) && PendingOk(s) && Enabled(s, e)
    ensures PendingOk(Next(s, e))
  {
    StepCounts(s, e);
    match e
    case Register(c) => RegisterKeepsPending(s, c);
    case Unregister(_) => RemovalKeepsPending(s, e);
    case Response(_, _) => RemovalKeepsPending(s, e);
    case _ =>
  }

  lemma AllottedStays(s: State, s': State, id: string)
    requires Allotted(s, id) && |s.phases| <= |s'.phases|
    ensures Allotted(s', id)
  {
    var c: nat :| c < |s.phases| && id == Id(c);
    assert c < |s'.phases|;
  }

  lemma StoreStep(s: State, e: Event, id: string)
    requires Enabled(s, e) && id in Next(s, e).store
    ensures id in s.store || (e.Call? && id == Id(s.next))
  {
  }

  lemma StepKeepsStore(s: State, e: Event)
    requires ShapeOk(s) && StoreOk(s) && Enabled(s, e)
    ensures StoreOk(Next(s, e))
  {
    var s' := Next(s, e);
    StepCounts(s, e);
    forall id | id in s'.store ensures Allotted(s', id) {
      StoreStep(s, e, id);
      if id in s.store {
        AllottedStays(s, s', id);
      } else {
        assert |s.phases| < |s'.phases| && id == Id(|s.phases|);
      }
    }
  }

  lemma StepCounts(s: State, e: Event)
    requires ShapeOk(s) && Enabled(s, e)
    ensures var s' := Next(s, e); |s'.phases| == |s'.chans| == |s.phases| + One(e.Call?)
    ensures Next(s, e).next == if e.Call? then (s.next + 1) % TWO_64 else s.next
  {
  }

  lemma StepKeepsReader(s: State, e: Event)
    requires ShapeOk(s) && PendingOk(s) && Enabled(s, e)
    ensures Next(s, e).reader.Holding? ==> Next(s, e).reader.c < |s.phases|
  {
  }

  lemma NextModulo(n: nat)
    ensures (n % TWO_64 + 1) % TWO_64 == (n + 1) % TWO_64
  {
  }

  lemma StepKeepsShape(s: State, e: Event)
    requires ShapeOk(s) && PendingOk(s) && Enabled(s, e)
    ensures ShapeOk(Next(s, e))
  {
    StepCounts(s, e);
    StepKeepsReader(s, e);
    NextModulo(|s.phases|);
  }

  lemma StepKeepsInv(s: State, e: Event)
    requires Inv(s) && Enabled(s, e) && |Next(s, e).phases| <= TWO_64
    ensures Inv(Next(s, e))
  {
    StepKeepsShape(s, e);
    StepKeepsCalls(s, e);
    StepKeepsPending(s, e);
    StepKeepsStore(s, e);
  }

  lemma {:induction false} CallsGrow(s: State, es: seq<Event>)
    requires Valid(s, es)
    ensures |s.phases| <= |After(s, es).phases|
    decreases |es|
  {
    if es != [] {
      CallsGrow(Next(s, es[0]), es[1..]);
    }
  }

  lemma {:induction false} RunKeepsInv(s: State, es: seq<Event>)
    requires Inv(s) && Valid(s, es) && |After(s, es).phases| <= TWO_64
    ensures Inv(After(s, es))
    decreases |es|
  {
    if es != [] {
      CallsGrow(Next(s, es[0]), es[1..]);
      StepKeepsInv(s, es[0]);
      RunKeepsInv(Next(s, es[0]), es[1..]);
    }
  }

  // ---------------------------------------------------------------- main results

  /** Go would panic: a send or a close on a closed channel; or block: a send on a full one. */
  predicate Misuses(s: State, e: Event)
    requires Enabled(s, e)
  {
    match e
    case Deliver => s.chans[s.reader.c].closes > 0 || s.chans[s.reader.c].buffered.Some?
    case Close(c) => s.chans[c].closes > 0
    case Fail => exists c :: 0 <= c < |s.chans| && c in s.pending.Values && s.chans[c].closes > 0
    case _ => false
  }

  /** A call that waits, and whom nobody will wake unless a frame or a failure comes. */
  predicate OnlyReaderCanHelp(s: State, c: nat)
    requires c < |s.phases| && c < |s.chans|
  {
    Id(c) in s.pending || HeldByReader(s, c)
  }

  predicate HeldByReader(s: State, c: nat) {
    s.reader.Holding? && s.reader.c == c
  }

  /** One send or close on the channel; a reply returned is one that arrived under the call's
      own id; and the caller is not forgotten: when it waits, either it can receive or its
      channel is still the reader's business. */
  predicate CallSafe(s: State, c: nat)
    requires c < |s.phases| && c < |s.chans|
  {
    && s.chans[c].sends + s.chans[c].closes <= 1
    && (GotReply(s.phases[c]) ==> (Id(c), s.phases[c].o.payload) in s.frames)
    && (s.phases[c].Waiting? ==> Ready(s.phases[c], s.chans[c], Receive(c)) || OnlyReaderCanHelp(s, c))
  }

  predicate Safe(s: State)
    requires |s.phases| == |s.chans|
  {
    && (forall c :: 0 <= c < |s.phases| ==> CallSafe(s, c))
    && (forall c, d :: 0 <= c < d < |s.phases| ==> Id(c) != Id(d))
    && |s.pending| <= s.max
  }

  lemma InvCallSafe(s: State, c: nat)
    requires Inv(s) && c < |s.phases|
    ensures CallSafe(s, c)
  {
    assert CallOk(s, c);
  }

  lemma InvIsSafe(s: State)
    requires Inv(s)
    ensures Safe(s)
  {
    forall c | 0 <= c < |s.phases| ensures CallSafe(s, c) {
      InvCallSafe(s, c);
    }
    forall c, d | 0 <= c < d < |s.phases| ensures Id(c) != Id(d) {
      IdsDiffer(c, d);
    }
  }

  lemma InvMisusesNothing(s: State, e: Event)
    requires Inv(s) && Enabled(s, e)
    ensures !Misuses(s, e)
  {
    match e
    case Deliver => assert CallOk(s, s.reader.c);
    case Close(c) => assert CallOk(s, c);
    case Fail =>
      forall c | 0 <= c < |s.chans| && c in s.pending.Values ensures s.chans[c].closes == 0 {
        assert CallOk(s, c);
      }
    case _ =>
  }

  /** In every interleaving of callers, reader, time-outs and teardown. */
  lemma {:induction false} SafeInEveryRun(max: nat, es: seq<Event>, e: Event)
    requires Valid(Init(max), es) && |After(Init(max), es).phases| <= TWO_64
    ensures var s := After(Init(max), es);
      |s.phases| == |s.chans| && Safe(s) && (Enabled(s, e) ==> !Misuses(s, e))
  {
    var s := After(Init(max), es);
    RunKeepsInv(Init(max), es);
    InvIsSafe(s);
    if Enabled(s, e) { InvMisusesNothing(s, e); }
  }

  predicate Over(p: Phase) {
    p.Refused? || p.Returned?
  }

  predicate ForgotItsId(p: Phase) {
    p.Returned? && !p.o.Backpressure?
  }

  lemma PendingIsNotOver(s: State, id: string)
    requires Inv(s) && id in s.pending
    ensures !Over(s.phases[s.pending[id]])
  {
    assert CallOk(s, s.pending[id]);
  }

  predicate Settled(s: State, c: nat)
    requires c < |s.phases| && c < |s.chans|
  {
    && (Id(c) in s.store <==> !ForgotItsId(s.phases[c]))
    && (!HeldByReader(s, c) ==> s.chans[c].sends + s.chans[c].closes == if s.phases[c].Refused? then 0 else 1)
  }

  lemma OverIsSettled(s: State, c: nat)
    requires Inv(s) && c < |s.phases| && Over(s.phases[c])
    ensures Settled(s, c)
  {
    assert CallOk(s, c);
  }

  /** When all calls have returned nothing is pending, each channel that was entered had
      exactly one send or close, unless the reader is about to do it; and the ids that remain
      stored are exactly those of the calls that were turned away: the id mapper leaks them. */
  lemma {:induction false} WhatIsLeft(max: nat, es: seq<Event>)
    requires Valid(Init(max), es) && |After(Init(max), es).phases| <= TWO_64
    requires forall p :: p in After(Init(max), es).phases ==> Over(p)
    ensures var s := After(Init(max), es);
      && |s.phases| == |s.chans| && s.pending == map[]
      && forall c :: 0 <= c < |s.phases| ==> Settled(s, c)
  {
    var s := After(Init(max), es);
    RunKeepsInv(Init(max), es);
    if s.pending != map[] {
      var id :| id in s.pending;
      PendingIsNotOver(s, id);
    }
    forall c | 0 <= c < |s.phases| ensures Settled(s, c) {
      OverIsSettled(s, c);
    }
  }

  // ---------------------------------------------------------------- how a call ends

  function OutcomeOf(s: State, c: nat): Option<Outcome> {
    if c < |s.phases| && !s.phases[c].Allocated? && !s.phases[c].Refused? && !s.phases[c].Entered? &&
      !s.phases[c].Waiting?
    then Some(s.phases[c].o)
    else None
  }

  /** What the step settles for call c: it hung up, its frame found no room, or it received the
      reply in its channel, or found the channel closed and empty. */
  function Settles(s: State, e: Event, c: nat): Option<Outcome>
    requires Enabled(s, e)
  {
    match e
    case Cancel(d) => if d == c then Some(TimedOut) else None
    case SendFrame(d, room) => if d == c && !room then Some(Backpressure) else None
    case Receive(d) =>
      if d != c then None
      else if s.chans[c].buffered.Some? then Some(Reply(s.chans[c].buffered.value))
      else Some(SessionClosed)
    case _ => None
  }

  /** What the first such step of the run settles. */
  function SettledBy(s: State, es: seq<Event>, c: nat): Option<Outcome>
    requires Valid(s, es)
    decreases |es|
  {
    if es == [] then None
    else if Settles(s, es[0], c).Some? then Settles(s, es[0], c)
    else SettledBy(Next(s, es[0]), es[1..], c)
  }

  lemma StepSettles(s: State, e: Event, c: nat)
    requires Enabled(s, e)
    ensures OutcomeOf(Next(s, e), c) == if OutcomeOf(s, c).Some? then OutcomeOf(s, c) else Settles(s, e, c)
  {
  }

  lemma {:induction false} RunSettles(s: State, es: seq<Event>, c: nat)
    requires Valid(s, es)
    ensures OutcomeOf(After(s, es), c) == if OutcomeOf(s, c).Some? then OutcomeOf(s, c) else SettledBy(s, es, c)
    decreases |es|
  {
    if es != [] {
      StepSettles(s, es[0], c);
      RunSettles(Next(s, es[0]), es[1..], c);
    }
  }

  /** The step asks for an entry for call c when the pending calls are as many as allowed. */
  predicate FindsItFull(s: State, e: Event, c: nat) {
    e == Register(c) && |s.pending| >= s.max
  }

  predicate FoundItFull(s: State, es: seq<Event>, c: nat)
    requires Valid(s, es)
    decreases |es|
  {
    es != [] && (FindsItFull(s, es[0], c) || FoundItFull(Next(s, es[0]), es[1..], c))
  }

  predicate IsRefused(s: State, c: nat) {
    c < |s.phases| && s.phases[c].Refused?
  }

  lemma StepRefuses(s: State, e: Event, c: nat)
    requires Enabled(s, e)
    ensures IsRefused(Next(s, e), c) <==> IsRefused(s, c) || FindsItFull(s, e, c)
  {
  }

  lemma {:induction false} RunRefuses(s: State, es: seq<Event>, c: nat)
    requires Valid(s, es)
    ensures IsRefused(After(s, es), c) <==> IsRefused(s, c) || FoundItFull(s, es, c)
    decreases |es|
  {
    if es != [] {
      StepRefuses(s, es[0], c);
      RunRefuses(Next(s, es[0]), es[1..], c);
    }
  }

  /** In every run a call's outcome is the one that the first step to end its waiting gives, and
      it is refused if and only if it asked for an entry when there was no room. */
  lemma {:induction false} OutcomeInEveryRun(max: nat, es: seq<Event>, c: nat)
    requires Valid(Init(max), es)
    ensures OutcomeOf(After(Init(max), es), c) == SettledBy(Init(max), es, c)
    ensures IsRefused(After(Init(max), es), c) <==> FoundItFull(Init(max), es, c)
  {
    RunSettles(Init(max), es, c);
    RunRefuses(Init(max), es, c);
  }

  // ---------------------------------------------------------------- a session that has ended

  /** The read loop has ended and call c waits with its entry in place. */
  predicate Stranded(s: State, c: nat) {
    s.reader.Dead? && c < |s.phases| && s.phases[c].Waiting? && Id(c) in s.pending
  }

  lemma StrandedStays(s: State, e: Event, c: nat)
    requires Inv(s) && Enabled(s, e) && |Next(s, e).phases| <= TWO_64
    requires Stranded(s, c) && e != Cancel(c)
    ensures Stranded(Next(s, e), c)
  {
    assert CallOk(s, c);
    if OwnEvent(e) && e.c != c {
      IdsDiffer(c, e.c);
    }
  }

  /** No other step than its own time-out ever moves such a call again. */
  lemma {:induction false} OnlyCancelHelps(s: State, es: seq<Event>, c: nat)
    requires Inv(s) && Valid(s, es) && |After(s, es).phases| <= TWO_64
    requires Stranded(s, c) && Cancel(c) !in es
    ensures Stranded(After(s, es), c)
    decreases |es|
  {
    if es != [] {
      CallsGrow(Next(s, es[0]), es[1..]);
      StepKeepsInv(s, es[0]);
      StrandedStays(s, es[0], c);
      OnlyCancelHelps(Next(s, es[0]), es[1..], c);
    }
  }

  /** Once the read loop has ended, a waiting call can go on without a time-out if and only if
      its entry is gone: the teardown closed its channel, or a reply had been taken for it before. */
  lemma {:induction false} WakesAfterTeardownIff(max: nat, es: seq<Event>, c: nat)
    requires Valid(Init(max), es) && |After(Init(max), es).phases| <= TWO_64
    requires After(Init(max), es).reader.Dead? && c < |After(Init(max), es).phases|
    requires After(Init(max), es).phases[c].Waiting?
    ensures var s := After(Init(max), es); Enabled(s, Receive(c)) <==> !Stranded(s, c)
  {
    RunKeepsInv(Init(max), es);
    assert CallOk(After(Init(max), es), c);
  }

  /** The step enters call c although the read loop has ended. */
  predicate EntersLate(s: State, e: Event, c: nat) {
    e == Register(c) && s.reader.Dead? && |s.pending| < s.max
  }

  /** Some step of the run does. */
  predicate EnteredLate(s: State, es: seq<Event>, c: nat)
    requires Valid(s, es)
    decreases |es|
  {
    es != [] && (EntersLate(s, es[0], c) || EnteredLate(Next(s, es[0]), es[1..], c))
  }

  /** The call does not wait and never will again. */
  predicate PastWaiting(s: State, c: nat) {
    c < |s.phases| && !s.phases[c].Allocated? && !s.phases[c].Entered? && !s.phases[c].Waiting?
  }

  lemma {:induction false} PastIsPast(s: State, es: seq<Event>, c: nat)
    requires Valid(s, es) && PastWaiting(s, c)
    ensures PastWaiting(After(s, es), c)
    decreases |es|
  {
    if es != [] {
      PastIsPast(Next(s, es[0]), es[1..], c);
    }
  }

  /** The read loop has ended and the entry of call c is in place. */
  predicate InPlace(s: State, c: nat) {
    s.reader.Dead? && Id(c) in s.pending
  }

  lemma OtherStepInPlace(s: State, e: Event, c: nat)
    requires Inv(s) && Enabled(s, e) && OwnEvent(e) && e.c != c && c < TWO_64
    ensures InPlace(Next(s, e), c) <==> InPlace(s, c)
  {
    IdsDiffer(c, e.c);
  }

  lemma OwnStepInPlace(s: State, e: Event, c: nat)
    requires Inv(s) && Enabled(s, e) && OwnEvent(e) && e.c == c && !e.Unregister?
    ensures InPlace(Next(s, e), c) <==> InPlace(s, c) || EntersLate(s, e, c)
  {
    assert CallOk(s, c);
  }

  lemma StepInPlace(s: State, e: Event, c: nat)
    requires Inv(s) && Enabled(s, e) && c < TWO_64 && e != Unregister(c)
    ensures InPlace(Next(s, e), c) <==> InPlace(s, c) || EntersLate(s, e, c)
  {
    if OwnEvent(e) {
      if e.c == c { OwnStepInPlace(s, e, c); } else { OtherStepInPlace(s, e, c); }
    }
  }

  lemma {:induction false} RunInPlace(s: State, es: seq<Event>, c: nat)
    requires Inv(s) && Valid(s, es) && |After(s, es).phases| <= TWO_64
    requires c < |After(s, es).phases| && After(s, es).phases[c].Waiting?
    ensures InPlace(After(s, es), c) <==> InPlace(s, c) || EnteredLate(s, es, c)
    decreases |es|
  {
    if es != [] {
      var s' := Next(s, es[0]);
      CallsGrow(s', es[1..]);
      if es[0] == Unregister(c) {
        PastIsPast(s', es[1..], c);
        assert false;
      }
      StepKeepsInv(s, es[0]);
      StepInPlace(s, es[0], c);
      RunInPlace(s', es[1..], c);
    }
  }

  /** The exact condition: once the read loop has ended, a waiting call can only time out if and
      only if it entered after that, with room among the pending calls. */
  lemma {:induction false} StrandedIffEnteredLate(max: nat, es: seq<Event>, c: nat)
    requires Valid(Init(max), es) && |After(Init(max), es).phases| <= TWO_64
    requires After(Init(max), es).reader.Dead? && c < |After(Init(max), es).phases|
    requires After(Init(max), es).phases[c].Waiting?
    ensures !Enabled(After(Init(max), es), Receive(c)) <==> EnteredLate(Init(max), es, c)
  {
    WakesAfterTeardownIff(max, es, c);
    RunInPlace(Init(max), es, c);
  }

  function StrandingRun(): seq<Event> {
    [Call("1"), Fail, Register(0), SendFrame(0, true)]
  }

  /** It happens: a call that got the session just before its read loop ended. */
  lemma {:induction false} CallCanBeStranded()
    ensures Valid(Init(16), StrandingRun()) && Stranded(After(Init(16), StrandingRun()), 0)
  {
    var es := StrandingRun();
    var s1 := Next(Init(16), es[0]);
    var s2 := Next(s1, es[1]);
    var s3 := Next(s2, es[2]);
    var s4 := Next(s3, es[3]);
    assert es[1..][1..][1..][1..] == [];
    assert es[1..][0] == es[1] && es[1..][1..][0] == es[2] && es[1..][1..][1..][0] == es[3];
    assert Valid(s4, []) && After(s4, []) == s4;
  }
}
