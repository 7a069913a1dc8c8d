/**
  Transfer channels, where one reader and one writer meet (server/internal/transfer/transfer.go).

  A step is one lock section or one channel operation.  Deleting the registry entry, marking
  the channel closed and closing `done` are three steps, and the expiry timer's callback runs
  beside the request handlers.  Channel ids are random in the source; here they are distinct
  numbers.
*/
module Transfer {
  import opened Wrappers

  datatype Role = Reader | Writer

  /** What a closer records; NoError is a copy that went well. */
  datatype Fault = NoError | Expired | Gone | Broken

  datatype Refusal = NotFound | WasExpired | RoleTaken | WasClosed

  /** Off: stopped, or its callback is over.  Missed: its callback was over before the channel
      was in the registry, so that it found nothing to expire. */
  datatype Timer = Armed | Firing | Marking | Announcing | Off | Missed

  /** `ready` and `done` say how often the channel of that name was closed. */
  datatype Chan = Chan(
    reader: Option<nat>,
    writer: Option<nat>,
    ready: nat,
    done: nat,
    closed: bool,
    err: Fault,
    timer: Timer,
    inserted: bool)

  function NewChan(): Chan {
    Chan(None, None, 0, 0, false, NoError, Armed, false)
  }

  // ---------------------------------------------------------------- the lock sections

  function Slot(c: Chan, role: Role): Option<nat> {
    if role.Reader? then c.reader else c.writer
  }

  function Seated(c: Chan, role: Role, h: nat): Chan {
    if role.Reader? then c.(reader := Some(h)) else c.(writer := Some(h))
  }

  function StopTimer(t: Timer): Timer {
    if t.Armed? then Off else t
  }

  /** Both ends are there: stop the timer and let them go, unless that was done before. */
  function Opened(c: Chan): Chan {
    if c.reader.Some? && c.writer.Some?
    then c.(timer := StopTimer(c.timer), ready := if c.ready == 0 then 1 else c.ready)
    else c
  }

  function WhyNot(c: Chan, role: Role): Option<Refusal> {
    if c.closed then Some(if c.err.Expired? then WasExpired else WasClosed)
    else if Slot(c, role).Some? then Some(RoleTaken)
    else None
  }

  function Attached(c: Chan, role: Role, h: nat): Chan {
    if WhyNot(c, role).Some? then c else Opened(Seated(c, role, h))
  }

  function Marked(c: Chan, f: Fault): Chan {
    if c.closed then c else c.(closed := true, err := f)
  }

  function Announced(c: Chan): Chan {
    c.(done := c.done + 1)
  }

  class Channel {
    var reader: Option<nat>
    var writer: Option<nat>
    var ready: nat
    var done: nat
    var closed: bool
    var err: Fault
    var timer: Timer
    var inserted: bool

    ghost function View(): Chan
      reads this
    {
      Chan(reader, writer, ready, done, closed, err, timer, inserted)
    }

    constructor ()
      ensures View() == NewChan()
    {
      reader, writer, ready, done, closed, err, timer, inserted := None, None, 0, 0, false, NoError, Armed, false;
    }

    /** The second lock section of Attach. */
    method Attach(role: Role, ep: nat) returns (refusal: Option<Refusal>)
      modifies this
      ensures refusal == WhyNot(old(View()), role)
      ensures View() == Attached(old(View()), role, ep)
    {
      if closed {
        return Some(if err.Expired? then WasExpired else WasClosed);
      }
      match role {
        case Reader =>
          if reader.Some? {
            return Some(RoleTaken);
          }
          reader := Some(ep);
        case Writer =>
          if writer.Some? {
            return Some(RoleTaken);
          }
          writer := Some(ep);
      }
      if reader.Some? && writer.Some? {
        timer := StopTimer(timer);
        if ready == 0 {
          ready := ready + 1;
        }
      }
      refusal := None;
    }

    method Close(f: Fault)
      modifies this
      ensures View() == if old(closed) then old(View()) else Announced(Marked(old(View()), f))
    {
      if closed {
        return;
      }
      closed := true;
      err := f;
      done := done + 1;
    }
  }

  class Registry {
    var channels: map<nat, Channel>

    /** No two ids lead to one channel, and what is here is open. */
    ghost predicate Valid()
      reads this, channels.Values
    {
      && (forall i, j :: i in channels && j in channels && channels[i] == channels[j] ==> i == j)
      && (forall i :: i in channels ==> !channels[i].closed && channels[i].done == 0)
    }

    constructor ()
      ensures Valid() && channels == map[]
    {
      channels := map[];
    }

    method Create(id: nat)
      requires Valid() && id !in channels
      modifies this
      ensures Valid() && channels.Keys == old(channels).Keys + {id}
      ensures fresh(channels[id]) && channels[id].View() == NewChan().(inserted := true)
      ensures forall i :: i in old(channels) ==> channels[i] == old(channels)[i]
    {
      var ch := new Channel();
      ch.inserted := true;
      channels := channels[id := ch];
    }

    /** Close, and expire with the fault Expired: whoever deletes the entry closes the channel. */
    method Close(id: nat, f: Fault)
      requires Valid()
      modifies this, channels.Values
      ensures Valid() && channels == old(channels) - {id}
      ensures id in old(channels) ==> old(channels)[id].View() == old(Announced(Marked(channels[id].View(), f)))
      ensures forall i :: i in channels ==> channels[i].View() == old(channels[i].View())
    {
      if id in channels {
        var ch := channels[id];
        channels := channels - {id};
        ch.Close(f);
      }
    }
  }

  // ---------------------------------------------------------------- handlers and timers together

  /** Joined: the writer copies, the reader waits for `done`. */
  datatype Phase =
    | Looking
    | Attaching
    | Rejected(why: Refusal)
    | Waiting
    | Joined
    | Deleting(f: Fault)
    | Marking(f: Fault)
    | Announcing
    | Ended(told: Option<Fault>)

  datatype Handler = Handler(role: Role, ch: nat, phase: Phase)

  datatype State = State(reg: set<nat>, chans: seq<Chan>, handlers: seq<Handler>)

  datatype TimerEvent = Insert | Fire | Remove | MarkExpired | AnnounceExpired

  datatype HandlerEvent = Attach | SeeReady | SeeDone | CtxDone | Copied(ok: bool) | Delete | Mark | Announce

  /** Creation makes the channel and arms its timer; Insert puts it in the registry. */
  datatype Event =
    | Create
    | TimerStep(i: nat, t: TimerEvent)
    | Request(role: Role, ch: nat)
    | Lookup(h: nat)
    | HandlerStep(h: nat, e: HandlerEvent)

  predicate TimerReady(c: Chan, t: TimerEvent) {
    match t
    case Insert => !c.inserted
    case Fire => c.timer.Armed?
    case Remove => c.timer.Firing?
    case MarkExpired => c.timer.Marking?
    case AnnounceExpired => c.timer.Announcing?
  }

  predicate HandlerReady(h: Handler, c: Chan, e: HandlerEvent) {
    match e
    case Attach => h.phase.Attaching?
    case SeeReady => h.phase.Waiting? && c.ready > 0
    case SeeDone => c.done > 0 && (h.phase.Waiting? || (h.phase.Joined? && h.role.Reader?))
    case CtxDone => h.phase.Waiting?
    case Copied(_) => h.phase.Joined? && h.role.Writer?
    case Delete => h.phase.Deleting?
    case Mark => h.phase.Marking?
    case Announce => h.phase.Announcing?
  }

  predicate Enabled(s: State, e: Event) {
    match e
    case Create => true
    case TimerStep(i, t) => i < |s.chans| && TimerReady(s.chans[i], t)
    case Request(_, _) => true
    case Lookup(h) => h < |s.handlers| && s.handlers[h].phase.Looking?
    case HandlerStep(h, e) =>
      h < |s.handlers| && s.handlers[h].ch < |s.chans| && HandlerReady(s.handlers[h], s.chans[s.handlers[h].ch], e)
  }

  function NextTimer(c: Chan, inReg: bool, t: TimerEvent): Chan {
    match t
    case Insert => c.(inserted := true)
    case Fire => c.(timer := Timer.Firing)
    case Remove => c.(timer := if inReg then Timer.Marking else if c.inserted then Off else Missed)
    case MarkExpired => Marked(c, Expired).(timer := if c.closed then Off else Timer.Announcing)
    case AnnounceExpired => Announced(c).(timer := Off)
  }

  /** What handler h does to its channel. */
  function NextChan(c: Chan, hd: Handler, h: nat, e: HandlerEvent): Chan {
    match e
    case Attach => Attached(c, hd.role, h)
    case Mark => if hd.phase.Marking? then Marked(c, hd.phase.f) else c
    case Announce => Announced(c)
    case _ => c
  }

  function NextPhase(c: Chan, inReg: bool, hd: Handler, e: HandlerEvent): Phase {
    match e
    case Attach => if WhyNot(c, hd.role).Some? then Rejected(WhyNot(c, hd.role).value) else Waiting
    case SeeReady => Joined
    case SeeDone => Ended(if hd.phase.Waiting? then Some(c.err) else None)
    case CtxDone => Deleting(Gone)
    case Copied(ok) => Deleting(if ok then NoError else Broken)
    case Delete => if inReg && hd.phase.Deleting? then Phase.Marking(hd.phase.f) else Ended(None)
    case Mark => if c.closed then Ended(None) else Phase.Announcing
    case Announce => Ended(None)
  }

  function Next(s: State, e: Event): State
    requires Enabled(s, e)
  {
    match e
    case Create => s.(chans := s.chans + [NewChan()])
    case TimerStep(i, t) =>
      s.(chans := s.chans[i := NextTimer(s.chans[i], i in s.reg, t)],
         reg := if t.Insert? then s.reg + {i} else if t.Remove? then s.reg - {i} else s.reg)
    case Request(role, ch) => s.(handlers := s.handlers + [Handler(role, ch, Looking)])
    case Lookup(h) => WithPhase(s, h, if s.handlers[h].ch in s.reg then Attaching else Rejected(NotFound))
    case HandlerStep(h, e) =>
      var hd := s.handlers[h];
      var c := s.chans[hd.ch];
      WithPhase(s, h, NextPhase(c, hd.ch in s.reg, hd, e))
        .(chans := s.chans[hd.ch := NextChan(c, hd, h, e)], reg := if e.Delete? then s.reg - {hd.ch} else s.reg)
  }

  function WithPhase(s: State, h: nat, p: Phase): State
    requires h < |s.handlers|
  {
    s.(handlers := s.handlers[h := s.handlers[h].(phase := p)])
  }

  function Init(): State {
    State({}, [], [])
  }

  predicate Valid(s: State, es: seq<Event>)
    decreases |es|
  {
    es == [] || (Enabled(s, es[0]) && Valid(Next(s, es[0]), es[1..]))
  }

  function After(s: State, es: seq<Event>): State
    requires Valid(s, es)
    decreases |es|
  {
    if es == [] then s else After(Next(s, es[0]), es[1..])
  }

  // ---------------------------------------------------------------- what every step keeps

  predicate IsAttached(p: Phase) {
    !p.Looking? && !p.Attaching? && !p.Rejected?
  }

  /** All that concerns one channel: itself, its two handlers, and whether it is registered. */
  datatype Local = Local(c: Chan, rp: Option<Phase>, wp: Option<Phase>, inReg: bool)

  function PhaseOf(s: State, slot: Option<nat>): Option<Phase> {
    if slot.Some? && slot.value < |s.handlers| then Some(s.handlers[slot.value].phase) else None
  }

  function LocalOf(s: State, i: nat): Local
    requires i < |s.chans|
  {
    var c := s.chans[i];
    Local(c, PhaseOf(s, c.reader), PhaseOf(s, c.writer), i in s.reg)
  }

  function One(b: bool): nat {
    if b then 1 else 0
  }

  function Markers(v: Local): nat {
    One(v.c.timer.Marking?) + One(v.rp.Some? && v.rp.value.Marking?) + One(v.wp.Some? && v.wp.value.Marking?)
  }

  function Announcers(v: Local): nat {
    One(v.c.timer.Announcing?) + One(v.rp.Some? && v.rp.value.Announcing?) + One(v.wp.Some? && v.wp.value.Announcing?)
  }

  /** A channel that was registered is in the registry, or has exactly one closer, or is closed. */
  predicate OwnerOk(v: Local) {
    && One(v.inReg) + Markers(v) + Announcers(v) + v.c.done == One(v.c.inserted)
    && (v.c.closed <==> Announcers(v) + v.c.done == 1)
    && (v.c.closed && v.c.err == NoError ==> v.c.ready == 1)
  }

  predicate ReadyOk(v: Local) {
    && v.c.ready == One(v.c.reader.Some? && v.c.writer.Some?)
    && v.rp.Some? == v.c.reader.Some? && v.wp.Some? == v.c.writer.Some?
    && (v.rp.Some? || v.wp.Some? ==> v.c.inserted)
  }

  predicate PartyOk(v: Local, p: Phase) {
    && (p.Joined? ==> v.c.ready == 1)
    && (p.Ended? ==> !v.inReg)
    && (p == Deleting(NoError) || p == Phase.Marking(NoError) ==> v.c.ready == 1)
    && IsAttached(p)
  }

  predicate TimerOk(v: Local) {
    && (v.inReg && v.c.timer.Off? ==> v.c.ready == 1)
    && (v.c.ready == 1 ==> !v.c.timer.Armed?)
    && (v.c.timer.Missed? || v.c.inserted || v.c.timer.Armed? || v.c.timer.Firing?)
  }

  predicate LocalOk(v: Local) {
    && OwnerOk(v) && ReadyOk(v) && TimerOk(v)
    && (v.rp.Some? ==> PartyOk(v, v.rp.value))
    && (v.wp.Some? ==> PartyOk(v, v.wp.value))
  }

  predicate SlotOk(s: State, i: nat, role: Role, slot: Option<nat>) {
    slot.Some? ==>
      slot.value < |s.handlers| && s.handlers[slot.value].ch == i && s.handlers[slot.value].role == role
  }

  predicate ChanOk(s: State, i: nat)
    requires i < |s.chans|
  {
    LocalOk(LocalOf(s, i)) && SlotOk(s, i, Reader, s.chans[i].reader) && SlotOk(s, i, Writer, s.chans[i].writer)
  }

  predicate HandlerOk(s: State, h: nat)
    requires h < |s.handlers|
  {
    var hd := s.handlers[h];
    && (!hd.phase.Looking? && !hd.phase.Rejected? ==> hd.ch < |s.chans| && s.chans[hd.ch].inserted)
    && (IsAttached(hd.phase) ==> Slot(s.chans[hd.ch], hd.role) == Some(h))
  }

  predicate Inv(s: State) {
    && (forall i :: i in s.reg ==> i < |s.chans|)
    && (forall i :: 0 <= i < |s.chans| ==> ChanOk(s, i))
    && (forall h :: 0 <= h < |s.handlers| ==> HandlerOk(s, h))
  }

  lemma TimerChan(s: State, i: nat, t: TimerEvent)
    requires Inv(s) && Enabled(s, TimerStep(i, t))
    ensures ChanOk(Next(s, TimerStep(i, t)), i)
  {
    assert ChanOk(s, i);
  }

  lemma CloserKeepsOwner(s: State, h: nat, e: HandlerEvent)
    requires Inv(s) && Enabled(s, HandlerStep(h, e)) && (e.Delete? || e.Mark? || e.Announce?)
    ensures OwnerOk(LocalOf(Next(s, HandlerStep(h, e)), s.handlers[h].ch))
  {
    assert ChanOk(s, s.handlers[h].ch) && HandlerOk(s, h);
  }

  lemma HandlerKeepsOwner(s: State, h: nat, e: HandlerEvent)
    requires Inv(s) && Enabled(s, HandlerStep(h, e))
    ensures OwnerOk(LocalOf(Next(s, HandlerStep(h, e)), s.handlers[h].ch))
  {
    if e.Delete? || e.Mark? || e.Announce? {
      CloserKeepsOwner(s, h, e);
    } else {
      assert ChanOk(s, s.handlers[h].ch) && HandlerOk(s, h);
    }
  }

  lemma HandlerKeepsParties(s: State, h: nat, e: HandlerEvent)
    requires Inv(s) && Enabled(s, HandlerStep(h, e))
    ensures var v := LocalOf(Next(s, HandlerStep(h, e)), s.handlers[h].ch);
      && ReadyOk(v) && TimerOk(v)
      && (v.rp.Some? ==> PartyOk(v, v.rp.value))
      && (v.wp.Some? ==> PartyOk(v, v.wp.value))
  {
    assert ChanOk(s, s.handlers[h].ch) && HandlerOk(s, h);
  }

  lemma HandlerKeepsSlots(s: State, h: nat, e: HandlerEvent)
    requires Inv(s) && Enabled(s, HandlerStep(h, e))
    ensures var s', i := Next(s, HandlerStep(h, e)), s.handlers[h].ch;
      SlotOk(s', i, Reader, s'.chans[i].reader) && SlotOk(s', i, Writer, s'.chans[i].writer)
  {
    assert ChanOk(s, s.handlers[h].ch) && HandlerOk(s, h);
  }

  lemma HandlerChan(s: State, h: nat, e: HandlerEvent)
    requires Inv(s) && Enabled(s, HandlerStep(h, e))
    ensures ChanOk(Next(s, HandlerStep(h, e)), s.handlers[h].ch)
  {
    HandlerKeepsOwner(s, h, e);
    HandlerKeepsParties(s, h, e);
    HandlerKeepsSlots(s, h, e);
  }

  lemma OtherChan(s: State, e: Event, i: nat)
    requires Inv(s) && Enabled(s, e) && i < |s.chans|
    requires e.TimerStep? ==> e.i != i
    requires e.HandlerStep? ==> s.handlers[e.h].ch != i
    ensures ChanOk(Next(s, e), i)
  {
    assert ChanOk(s, i);
    if e.Lookup? { assert HandlerOk(s, e.h); }
  }

  lemma OtherHandler(s: State, e: Event, h: nat)
    requires Inv(s) && Enabled(s, e) && h < |s.handlers|
    requires e.HandlerStep? || e.Lookup? ==> e.h != h
    ensures HandlerOk(Next(s, e), h)
  {
    assert HandlerOk(s, h);
  }

  lemma OwnHandler(s: State, h: nat, e: HandlerEvent)
    requires Inv(s) && Enabled(s, HandlerStep(h, e))
    ensures HandlerOk(Next(s, HandlerStep(h, e)), h)
  {
    assert HandlerOk(s, h);
  }

  lemma LookupHandler(s: State, h: nat)
    requires Inv(s) && Enabled(s, Lookup(h))
    ensures HandlerOk(Next(s, Lookup(h)), h)
  {
    assert s.handlers[h].ch in s.reg ==> ChanOk(s, s.handlers[h].ch);
  }

  lemma StepKeepsHandlers(s: State, e: Event)
    requires Inv(s) && Enabled(s, e)
    ensures var s' := Next(s, e); forall h :: 0 <= h < |s'.handlers| ==> HandlerOk(s', h)
  {
    var s' := Next(s, e);
    forall h | 0 <= h < |s'.handlers| ensures HandlerOk(s', h) {
      match e
      case HandlerStep(n, e') => if n == h { OwnHandler(s, h, e'); } else { OtherHandler(s, e, h); }
      case Lookup(n) => if n == h { LookupHandler(s, h); } else { OtherHandler(s, e, h); }
      case _ => if h < |s.handlers| { OtherHandler(s, e, h); }
    }
  }

  lemma StepKeepsChans(s: State, e: Event)
    requires Inv(s) && Enabled(s, e)
    ensures var s' := Next(s, e); forall i :: 0 <= i < |s'.chans| ==> ChanOk(s', i)
  {
    var s' := Next(s, e);
    forall i | 0 <= i < |s'.chans| ensures ChanOk(s', i) {
      match e
      case TimerStep(n, t) => if n == i { TimerChan(s, i, t); } else { OtherChan(s, e, i); }
      case HandlerStep(h, e') => if s.handlers[h].ch == i { HandlerChan(s, h, e'); } else { OtherChan(s, e, i); }
      case _ => if i < |s.chans| { OtherChan(s, e, i); }
    }
  }

  lemma StepKeepsInv(s: State, e: Event)
    requires Inv(s) && Enabled(s, e)
    ensures Inv(Next(s, e))
  {
    StepKeepsHandlers(s, e);
    StepKeepsChans(s, e);
  }

  lemma {:induction false} RunKeepsInv(s: State, es: seq<Event>)
    requires Inv(s) && Valid(s, es)
    ensures Inv(After(s, es))
    decreases |es|
  {
    if es != [] {
      StepKeepsInv(s, es[0]);
      RunKeepsInv(Next(s, es[0]), es[1..]);
    }
  }

  // ---------------------------------------------------------------- main results

  predicate IsClosing(p: Phase) {
    p.Marking? || p.Announcing?
  }

  /** Somebody has deleted the entry and has yet to close `done`. */
  predicate CloserPending(v: Local) {
    || v.c.timer.Marking? || v.c.timer.Announcing?
    || (v.rp.Some? && IsClosing(v.rp.value)) || (v.wp.Some? && IsClosing(v.wp.value))
  }

  /** The writer of a reader that only waits for `done` will delete the entry itself. */
  predicate WriterWillClose(v: Local) {
    v.inReg && v.wp.Some? && (v.wp.value.Waiting? || v.wp.value.Joined? || v.wp.value.Deleting?)
  }

  predicate ChanSafe(v: Local) {
    && v.c.done <= 1
    && v.c.ready == One(v.c.reader.Some? && v.c.writer.Some?)
    && (v.c.done == 1 ==> v.c.closed)
    // once both ends are there the timer can no longer fire
    && (v.c.reader.Some? && v.c.writer.Some? ==> !v.c.timer.Armed?)
    // the closer is one, and it finds the channel open
    && Markers(v) + Announcers(v) <= 1 && (Markers(v) == 1 ==> !v.c.closed)
    // a channel removed from the registry is closed or about to be
    && (v.c.inserted && !v.inReg ==> v.c.done == 1 || CloserPending(v))
    // a joined reader has `done`, a closer, or a writer that will close
    && (v.rp == Some(Joined) ==> v.c.done == 1 || CloserPending(v) || WriterWillClose(v))
  }

  /** Go would panic: closing `done` again. */
  predicate ClosesAgain(s: State, e: Event)
    requires Enabled(s, e)
  {
    match e
    case TimerStep(i, t) => t.AnnounceExpired? && s.chans[i].done > 0
    case HandlerStep(h, e) => e.Announce? && s.chans[s.handlers[h].ch].done > 0
    case _ => false
  }

  /** In every interleaving: each role is held by one handler, `ready` is closed exactly when
      both are taken, `done` at most once, and nobody is left waiting on a removed channel. */
  lemma {:induction false} SafeInEveryRun(es: seq<Event>, i: nat, e: Event)
    requires Valid(Init(), es) && i < |After(Init(), es).chans|
    ensures var s := After(Init(), es);
      ChanSafe(LocalOf(s, i)) && (Enabled(s, e) ==> !ClosesAgain(s, e))
  {
    var s := After(Init(), es);
    RunKeepsInv(Init(), es);
    assert ChanOk(s, i);
    if Enabled(s, e) {
      match e
      case TimerStep(n, t) => assert ChanOk(s, n);
      case HandlerStep(h, e') => assert HandlerOk(s, h) && ChanOk(s, s.handlers[h].ch);
      case _ =>
    }
  }

  /** No two handlers hold one role of one channel. */
  lemma {:induction false} OneHandlerPerRole(es: seq<Event>, h: nat, h': nat)
    requires Valid(Init(), es)
    requires h < |After(Init(), es).handlers| && h' < |After(Init(), es).handlers|
    requires var s := After(Init(), es);
      && IsAttached(s.handlers[h].phase) && IsAttached(s.handlers[h'].phase)
      && s.handlers[h].ch == s.handlers[h'].ch && s.handlers[h].role == s.handlers[h'].role
    ensures h == h'
  {
    var s := After(Init(), es);
    RunKeepsInv(Init(), es);
    assert HandlerOk(s, h) && HandlerOk(s, h');
  }

  /** Nothing that was taken, closed or recorded is ever undone. */
  predicate Sticky(c: Chan, c': Chan) {
    && (c.closed ==> c'.closed && c'.err == c.err)
    && (c.reader.Some? ==> c'.reader == c.reader) && (c.writer.Some? ==> c'.writer == c.writer)
    && c.ready <= c'.ready && c.done <= c'.done && (c.inserted ==> c'.inserted)
  }

  lemma StepIsSticky(s: State, e: Event, i: nat)
    requires Enabled(s, e) && i < |s.chans|
    ensures Sticky(s.chans[i], Next(s, e).chans[i])
  {
  }

  lemma {:induction false} RunIsSticky(s: State, es: seq<Event>, i: nat)
    requires Valid(s, es) && i < |s.chans|
    ensures i < |After(s, es).chans| && Sticky(s.chans[i], After(s, es).chans[i])
    decreases |es|
  {
    if es != [] {
      StepIsSticky(s, es[0], i);
      RunIsSticky(Next(s, es[0]), es[1..], i);
    }
  }

  // ---------------------------------------------------------------- nobody waits for ever

  predicate Over(p: Phase) {
    p.Rejected? || p.Ended?
  }

  predicate TimerAtRest(c: Chan) {
    c.inserted && (c.timer.Off? || c.timer.Missed?)
  }

  /** The handler has nothing to do unless its client hangs up. */
  ghost predicate AtRest(s: State, h: nat)
    requires h < |s.handlers|
  {
    var hd := s.handlers[h];
    && !hd.phase.Looking?
    && (hd.ch < |s.chans| ==> forall e: HandlerEvent :: HandlerReady(hd, s.chans[hd.ch], e) ==> e.CtxDone?)
  }

  /** Nothing moves by itself any more. */
  ghost predicate Quiet(s: State) {
    && (forall i :: 0 <= i < |s.chans| ==> TimerAtRest(s.chans[i]))
    && (forall h :: 0 <= h < |s.handlers| ==> AtRest(s, h))
  }

  predicate FromOutside(e: Event) {
    e.Create? || e.Request? || (e.HandlerStep? && e.e.CtxDone?)
  }

  /** A state is quiet if and only if every enabled event is a new channel, a new request or a
      client that hangs up. */
  lemma {:induction false} QuietIff(s: State)
    requires Inv(s)
    ensures Quiet(s) <==> forall e :: Enabled(s, e) ==> FromOutside(e)
  {
    if forall e :: Enabled(s, e) ==> FromOutside(e) {
      forall i | 0 <= i < |s.chans| ensures TimerAtRest(s.chans[i]) {
        assert ChanOk(s, i);
        assert !Enabled(s, TimerStep(i, Insert)) && !Enabled(s, TimerStep(i, Fire));
        assert !Enabled(s, TimerStep(i, Remove));
        assert !Enabled(s, TimerStep(i, MarkExpired)) && !Enabled(s, TimerStep(i, AnnounceExpired));
      }
      forall h | 0 <= h < |s.handlers| ensures AtRest(s, h) {
        assert !Enabled(s, Lookup(h));
        forall e: HandlerEvent
          | s.handlers[h].ch < |s.chans| && HandlerReady(s.handlers[h], s.chans[s.handlers[h].ch], e)
          ensures e.CtxDone?
        {
          assert Enabled(s, HandlerStep(h, e));
        }
      }
    } else {
      var e :| Enabled(s, e) && !FromOutside(e);
      if e.TimerStep? {
        assert !TimerAtRest(s.chans[e.i]) by { assert ChanOk(s, e.i); }
      } else {
        assert !AtRest(s, e.h);
      }
    }
  }

  /** In the run the timer of channel i looked for it in the registry before it was put there. */
  predicate RemovedEarly(es: seq<Event>, i: nat) {
    es != [] && (es[0] == TimerStep(i, Remove) || (es[0] != TimerStep(i, Insert) && RemovedEarly(es[1..], i)))
  }

  predicate IsInserted(s: State, i: nat) {
    i < |s.chans| && s.chans[i].inserted
  }

  predicate HasMissed(s: State, i: nat) {
    i < |s.chans| && s.chans[i].timer.Missed?
  }

  lemma StepMisses(s: State, e: Event, i: nat)
    requires Inv(s) && Enabled(s, e)
    ensures HasMissed(Next(s, e), i) <==> HasMissed(s, i) || (e == TimerStep(i, Remove) && !IsInserted(s, i))
    ensures IsInserted(Next(s, e), i) <==> IsInserted(s, i) || e == TimerStep(i, Insert)
  {
    if i < |s.chans| { assert ChanOk(s, i); }
  }

  lemma {:induction false} RunMisses(s: State, es: seq<Event>, i: nat)
    requires Inv(s) && Valid(s, es)
    ensures HasMissed(After(s, es), i) <==> HasMissed(s, i) || (!IsInserted(s, i) && RemovedEarly(es, i))
    decreases |es|
  {
    if es != [] {
      StepMisses(s, es[0], i);
      StepKeepsInv(s, es[0]);
      RunMisses(Next(s, es[0]), es[1..], i);
    }
  }

  /** Handler h took its role on a channel that nobody joined and nobody closed, and whose timer
      looked for it in the registry before it was there. */
  predicate Overlooked(es: seq<Event>, h: nat)
    requires Valid(Init(), es) && h < |After(Init(), es).handlers|
  {
    var s := After(Init(), es);
    var hd := s.handlers[h];
    && hd.ch < |s.chans| && Slot(s.chans[hd.ch], hd.role) == Some(h)
    && s.chans[hd.ch].ready == 0 && hd.ch in s.reg
    && RemovedEarly(es, hd.ch)
  }

  lemma RestingPhase(s: State, h: nat)
    requires Inv(s) && h < |s.handlers| && AtRest(s, h) && !Over(s.handlers[h].phase)
    ensures var hd := s.handlers[h];
      && hd.ch < |s.chans| && s.chans[hd.ch].done == 0
      && ((hd.phase.Waiting? && s.chans[hd.ch].ready == 0) || (hd.phase.Joined? && hd.role.Reader?))
  {
    var hd := s.handlers[h];
    assert HandlerOk(s, h);
    assert ChanOk(s, hd.ch);
    var c := s.chans[hd.ch];
    assert !HandlerReady(hd, c, Attach) && !HandlerReady(hd, c, SeeReady) && !HandlerReady(hd, c, SeeDone);
    assert !HandlerReady(hd, c, Copied(true)) && !HandlerReady(hd, c, Delete);
    assert !HandlerReady(hd, c, Mark) && !HandlerReady(hd, c, Announce);
  }

  lemma RestingParty(s: State, i: nat, slot: Option<nat>)
    requires Inv(s) && Quiet(s) && i < |s.chans|
    requires slot == s.chans[i].reader || slot == s.chans[i].writer
    ensures var p := PhaseOf(s, slot); p.Some? ==> p.value.Ended? || p.value.Waiting? || p.value.Joined?
    ensures var p := PhaseOf(s, slot);
      p.Some? && slot == s.chans[i].writer && s.chans[i].ready == 1 ==> p.value.Ended?
  {
    assert ChanOk(s, i);
    if slot.Some? {
      assert AtRest(s, slot.value);
      if !Over(s.handlers[slot.value].phase) { RestingPhase(s, slot.value); }
    }
  }

  lemma RestingChan(s: State, i: nat)
    requires Inv(s) && Quiet(s) && i < |s.chans| && s.chans[i].done == 0
    ensures i in s.reg && s.chans[i].ready == 0
  {
    assert ChanOk(s, i) && TimerAtRest(s.chans[i]);
    RestingParty(s, i, s.chans[i].reader);
    RestingParty(s, i, s.chans[i].writer);
  }

  /** When nothing moves any more, a handler that has not ended has taken its role on a channel
      that nobody joined or closed; and exactly then its timer's callback had run before the
      channel was registered. */
  lemma {:induction false} EndedUnlessOverlooked(es: seq<Event>, h: nat)
    requires Valid(Init(), es) && Quiet(After(Init(), es)) && h < |After(Init(), es).handlers|
    ensures Over(After(Init(), es).handlers[h].phase) <==> !Overlooked(es, h)
  {
    var s := After(Init(), es);
    var i := s.handlers[h].ch;
    RunKeepsInv(Init(), es);
    RunMisses(Init(), es, i);
    assert HandlerOk(s, h);
    if Overlooked(es, h) {
      assert ChanOk(s, i);
    }
    if !Over(s.handlers[h].phase) {
      assert AtRest(s, h);
      RestingPhase(s, h);
      RestingChan(s, i);
      assert ChanOk(s, i) && TimerAtRest(s.chans[i]);
    }
  }

  // ---------------------------------------------------------------- what clients are told

  function MeantBy(e: Event, h: nat): Option<Fault> {
    match e
    case HandlerStep(n, CtxDone) => if n == h then Some(Gone) else None
    case HandlerStep(n, Copied(ok)) => if n == h then Some(if ok then NoError else Broken) else None
    case _ => None
  }

  /** How handler h came to close its channel: its client hung up, or its copy ended. */
  function Meant(past: seq<Event>, h: nat): Option<Fault> {
    if past == [] then None
    else
      var last := past[|past| - 1];
      if MeantBy(last, h).Some? then MeantBy(last, h) else Meant(past[..|past| - 1], h)
  }

  /** The fault with which the step closes channel i, if it does that. */
  function ClosesWith(s: State, past: seq<Event>, e: Event, i: nat): Option<Fault> {
    match e
    case TimerStep(n, MarkExpired) => if n == i then Some(Expired) else None
    case HandlerStep(h, Mark) => if h < |s.handlers| && s.handlers[h].ch == i then Meant(past, h) else None
    case _ => None
  }

  /** The fault of the first step of the run that closes it. */
  function FirstFault(s: State, past: seq<Event>, es: seq<Event>, i: nat): Option<Fault>
    requires Valid(s, es)
    decreases |es|
  {
    if es == [] then None
    else if ClosesWith(s, past, es[0], i).Some? then ClosesWith(s, past, es[0], i)
    else FirstFault(Next(s, es[0]), past + [es[0]], es[1..], i)
  }

  function Recorded(s: State, i: nat): Option<Fault> {
    if i < |s.chans| && s.chans[i].closed then Some(s.chans[i].err) else None
  }

  predicate IsClosingFor(s: State, past: seq<Event>, h: nat)
    requires h < |s.handlers|
  {
    match s.handlers[h].phase
    case Deleting(f) => Meant(past, h) == Some(f)
    case Marking(f) => Meant(past, h) == Some(f)
    case _ => true
  }

  predicate AllClosingFor(s: State, past: seq<Event>) {
    forall h :: 0 <= h < |s.handlers| ==> IsClosingFor(s, past, h)
  }

  lemma MeantNext(past: seq<Event>, e: Event, h: nat)
    ensures Meant(past + [e], h) == if MeantBy(e, h).Some? then MeantBy(e, h) else Meant(past, h)
  {
    assert (past + [e])[..|past|] == past;
  }

  lemma StepClosesFor(s: State, past: seq<Event>, e: Event, h: nat)
    requires Enabled(s, e) && AllClosingFor(s, past) && h < |Next(s, e).handlers|
    ensures IsClosingFor(Next(s, e), past + [e], h)
  {
    MeantNext(past, e, h);
    assert h < |s.handlers| ==> IsClosingFor(s, past, h);
  }

  lemma StepRecordsFault(s: State, past: seq<Event>, e: Event, i: nat)
    requires Inv(s) && Enabled(s, e) && AllClosingFor(s, past)
    ensures Recorded(Next(s, e), i) == if Recorded(s, i).Some? then Recorded(s, i) else ClosesWith(s, past, e, i)
  {
    match e
    case TimerStep(n, _) => if n < |s.chans| { assert ChanOk(s, n); }
    case HandlerStep(h, _) => assert HandlerOk(s, h) && IsClosingFor(s, past, h);
    case _ =>
  }

  lemma {:induction false} RunRecordsFault(s: State, past: seq<Event>, es: seq<Event>, i: nat)
    requires Inv(s) && Valid(s, es) && AllClosingFor(s, past)
    ensures Recorded(After(s, es), i)
         == if Recorded(s, i).Some? then Recorded(s, i) else FirstFault(s, past, es, i)
    decreases |es|
  {
    if es != [] {
      var s' := Next(s, es[0]);
      StepKeepsInv(s, es[0]);
      StepRecordsFault(s, past, es[0], i);
      forall h | 0 <= h < |s'.handlers| ensures IsClosingFor(s', past + [es[0]], h) {
        StepClosesFor(s, past, es[0], h);
      }
      RunRecordsFault(s', past + [es[0]], es[1..], i);
    }
  }

  /** In every run a channel records the fault of the first step that closed it: expiry for the
      timer, and for a handler that its client hung up or how its copy ended. */
  lemma {:induction false} FirstFaultIsRecorded(es: seq<Event>, i: nat)
    requires Valid(Init(), es)
    ensures Recorded(After(Init(), es), i) == FirstFault(Init(), [], es, i)
  {
    RunRecordsFault(Init(), [], es, i);
  }

  /** A waiting handler that takes `done` is told that fault. */
  lemma {:induction false} ToldTheFirstFault(es: seq<Event>, h: nat)
    requires Valid(Init(), es) && Enabled(After(Init(), es), HandlerStep(h, SeeDone))
    requires After(Init(), es).handlers[h].phase.Waiting?
    ensures var s := After(Init(), es);
            var fault := FirstFault(Init(), [], es, s.handlers[h].ch);
      fault.Some? && Next(s, HandlerStep(h, SeeDone)).handlers[h].phase == Ended(fault)
  {
    var s := After(Init(), es);
    RunKeepsInv(Init(), es);
    assert HandlerOk(s, h) && ChanOk(s, s.handlers[h].ch);
    FirstFaultIsRecorded(es, s.handlers[h].ch);
  }

  /** A waiting handler that takes `done` reports a missing error, which its client sees as a
      failure, if and only if the channel was closed after a successful copy. */
  lemma {:induction false} ToldNothingIffServed(es: seq<Event>, h: nat)
    requires Valid(Init(), es) && Enabled(After(Init(), es), HandlerStep(h, SeeDone))
    requires After(Init(), es).handlers[h].phase.Waiting?
    ensures var s := After(Init(), es);
            var served := FirstFault(Init(), [], es, s.handlers[h].ch) == Some(NoError);
      && (Next(s, HandlerStep(h, SeeDone)).handlers[h].phase == Ended(Some(NoError)) <==> served)
      && (served ==> Enabled(s, HandlerStep(h, SeeReady)))
  {
    var s := After(Init(), es);
    RunKeepsInv(Init(), es);
    assert HandlerOk(s, h) && ChanOk(s, s.handlers[h].ch);
    ToldTheFirstFault(es, h);
  }

  /** Another handler holds the role that handler h asks for. */
  predicate Occupied(s: State, h: nat)
    requires h < |s.handlers|
  {
    exists n :: 0 <= n < |s.handlers| && IsAttached(s.handlers[n].phase) &&
      s.handlers[n].ch == s.handlers[h].ch && s.handlers[n].role == s.handlers[h].role
  }

  lemma OccupiedIff(s: State, h: nat)
    requires Inv(s) && h < |s.handlers| && s.handlers[h].ch < |s.chans|
    ensures Occupied(s, h) <==> Slot(s.chans[s.handlers[h].ch], s.handlers[h].role).Some?
  {
    var hd := s.handlers[h];
    var slot := Slot(s.chans[hd.ch], hd.role);
    assert ChanOk(s, hd.ch);
    if slot.Some? {
      assert IsAttached(s.handlers[slot.value].phase);
    }
    if Occupied(s, h) {
      var n :| 0 <= n < |s.handlers| && IsAttached(s.handlers[n].phase) &&
        s.handlers[n].ch == hd.ch && s.handlers[n].role == hd.role;
      assert HandlerOk(s, n);
    }
  }

  /** Why a request for a role is refused: the channel expired first, or was closed first in
      another way, or is open and the role is taken; and otherwise it is not. */
  lemma {:induction false} RefusalMeans(es: seq<Event>, h: nat)
    requires Valid(Init(), es) && Enabled(After(Init(), es), HandlerStep(h, Attach))
    ensures var s := After(Init(), es);
            var fault := FirstFault(Init(), [], es, s.handlers[h].ch);
      Next(s, HandlerStep(h, Attach)).handlers[h].phase
      == if fault == Some(Expired) then Rejected(WasExpired)
         else if fault.Some? then Rejected(WasClosed)
         else if Occupied(s, h) then Rejected(RoleTaken)
         else Waiting
  {
    var s := After(Init(), es);
    RunKeepsInv(Init(), es);
    FirstFaultIsRecorded(es, s.handlers[h].ch);
    OccupiedIff(s, h);
  }

  // ---------------------------------------------------------------- two runs

  lemma {:induction false} ThenValid(s: State, es: seq<Event>, e: Event)
    requires Valid(s, es) && Enabled(After(s, es), e)
    ensures Valid(s, es + [e]) && After(s, es + [e]) == Next(After(s, es), e)
    decreases |es|
  {
    if es == [] {
      assert (es + [e])[1..] == [];
    } else {
      ThenValid(Next(s, es[0]), es[1..], e);
      assert (es + [e])[1..] == es[1..] + [e];
    }
  }

  lemma MissingRun() returns (es: seq<Event>)
    ensures Valid(Init(), es)
    ensures After(Init(), es) == State({0},
      [Chan(Some(0), None, 0, 0, false, NoError, Missed, true)], [Handler(Reader, 0, Waiting)])
  {
    es := [];
    es := Then(es, Create);
    es := Then(es, TimerStep(0, Fire));
    es := Then(es, TimerStep(0, Remove));
    es := Then(es, TimerStep(0, Insert));
    es := Then(es, Request(Reader, 0));
    es := Then(es, Lookup(0));
    es := Then(es, HandlerStep(0, Attach));
  }

  /** A timer that is faster than the insertion leaves the first client waiting. */
  lemma {:induction false} TimerCanMiss() returns (es: seq<Event>)
    ensures Valid(Init(), es) && Quiet(After(Init(), es)) && |After(Init(), es).handlers| == 1
    ensures Overlooked(es, 0)
  {
    es := MissingRun();
    RunMisses(Init(), es, 0);
  }

  lemma Then(es: seq<Event>, e: Event) returns (es': seq<Event>)
    requires Valid(Init(), es) && Enabled(After(Init(), es), e)
    ensures Valid(Init(), es') && After(Init(), es') == Next(After(Init(), es), e)
  {
    es' := es + [e];
    ThenValid(Init(), es, e);
  }

  lemma BothAttached() returns (es: seq<Event>)
    ensures Valid(Init(), es)
    ensures After(Init(), es) == State({0},
      [Chan(Some(0), Some(1), 1, 0, false, NoError, Off, true)],
      [Handler(Reader, 0, Waiting), Handler(Writer, 0, Waiting)])
  {
    es := [];
    es := Then(es, Create);
    es := Then(es, TimerStep(0, Insert));
    es := Then(es, Request(Reader, 0));
    es := Then(es, Request(Writer, 0));
    es := Then(es, Lookup(0));
    es := Then(es, Lookup(1));
    es := Then(es, HandlerStep(0, Attach));
    es := Then(es, HandlerStep(1, Attach));
  }

  /** A reader that is slow to wake up after a successful copy answers its client with an error. */
  lemma {:induction false} ServedReaderCanReportAnError() returns (es: seq<Event>)
    ensures Valid(Init(), es) && |After(Init(), es).chans| == 1 && |After(Init(), es).handlers| == 2
    ensures After(Init(), es).chans[0].err == NoError && After(Init(), es).chans[0].done == 1
    ensures After(Init(), es).handlers[0] == Handler(Reader, 0, Ended(Some(NoError)))
  {
    es := BothAttached();
    es := Then(es, HandlerStep(1, SeeReady));
    es := Then(es, HandlerStep(1, Copied(true)));
    es := Then(es, HandlerStep(1, Delete));
    es := Then(es, HandlerStep(1, Mark));
    es := Then(es, HandlerStep(1, Announce));
    es := Then(es, HandlerStep(0, SeeDone));
  }
}
