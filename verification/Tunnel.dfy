/**
  What a relay keeps about the requests that go through it (sdk/base/tunnel/registry.go).

  Request h uses the session id h; ids are random in the source.  A request runs four lock
  sections: it is admitted, it registers its channel, it unregisters it, and it is released.
*/
module Tunnel {

  datatype Relay = Relay(inflight: int, methods: map<string, int>, sessions: map<nat, string>, pending: set<nat>)

  function Times(methods: map<string, int>, name: string): int {
    if name in methods then methods[name] else 0
  }

  predicate Full(r: Relay, limit: int) {
    limit > 0 && r.inflight >= limit
  }

  function Admitted(r: Relay, h: nat, name: string): Relay {
    r.(inflight := r.inflight + 1, methods := r.methods[name := Times(r.methods, name) + 1],
       sessions := r.sessions[h := name])
  }

  function Released(r: Relay, h: nat, name: string): Relay {
    r.(inflight := r.inflight - 1, methods := r.methods[name := Times(r.methods, name) - 1],
       sessions := r.sessions - {h})
  }

  class RelayObject {
    var inflight: int
    var methods: map<string, int>
    var sessions: map<nat, string>
    var pending: set<nat>

    ghost function View(): Relay
      reads this
    {
      Relay(inflight, methods, sessions, pending)
    }

    constructor ()
      ensures View() == Relay(0, map[], map[], {})
    {
      inflight, methods, sessions, pending := 0, map[], map[], {};
    }

    method Admit(limit: int, sid: nat, name: string) returns (ok: bool)
      modifies this
      ensures ok == !Full(old(View()), limit)
      ensures View() == if ok then Admitted(old(View()), sid, name) else old(View())
    {
      if limit > 0 && inflight >= limit {
        return false;
      }
      inflight := inflight + 1;
      methods := methods[name := Times(methods, name) + 1];
      sessions := sessions[sid := name];
      ok := true;
    }

    method Register(sid: nat)
      modifies this
      ensures View() == old(View()).(pending := old(pending) + {sid})
    {
      pending := pending + {sid};
    }

    method Unregister(sid: nat)
      modifies this
      ensures View() == old(View()).(pending := old(pending) - {sid})
    {
      pending := pending - {sid};
    }

    method Release(sid: nat, name: string)
      modifies this
      ensures View() == Released(old(View()), sid, name)
    {
      inflight := inflight - 1;
      methods := methods[name := Times(methods, name) - 1];
      sessions := sessions - {sid};
    }
  }

  // ---------------------------------------------------------------- requests side by side

  datatype Phase = Arrived | Refused | Counted | Listening | Leaving | Gone

  datatype Request = Request(name: string, phase: Phase)

  datatype State = State(limit: int, relay: Relay, requests: seq<Request>)

  datatype Event = Arrive(name: string) | Admit(h: nat) | Register(h: nat) | Unregister(h: nat) | Release(h: nat)

  predicate Enabled(s: State, e: Event) {
    match e
    case Arrive(_) => true
    case Admit(h) => h < |s.requests| && s.requests[h].phase.Arrived?
    case Register(h) => h < |s.requests| && s.requests[h].phase.Counted?
    case Unregister(h) => h < |s.requests| && s.requests[h].phase.Listening?
    case Release(h) => h < |s.requests| && s.requests[h].phase.Leaving?
  }

  function At(s: State, h: nat, p: Phase, relay: Relay): State
    requires h < |s.requests|
  {
    s.(relay := relay, requests := s.requests[h := s.requests[h].(phase := p)])
  }

  function Next(s: State, e: Event): State
    requires Enabled(s, e)
  {
    var r := s.relay;
    match e
    case Arrive(name) => s.(requests := s.requests + [Request(name, Arrived)])
    case Admit(h) =>
      if Full(r, s.limit) then At(s, h, Refused, r) else At(s, h, Counted, Admitted(r, h, s.requests[h].name))
    case Register(h) => At(s, h, Listening, r.(pending := r.pending + {h}))
    case Unregister(h) => At(s, h, Leaving, r.(pending := r.pending - {h}))
    case Release(h) => At(s, h, Gone, Released(r, h, s.requests[h].name))
  }

  function Init(limit: int): State {
    State(limit, Relay(0, map[], map[], {}), [])
  }

  predicate Valid(s: State, es: seq<Event>)
    decreases |es|
  {
    es == [] || (Enabled(s, es[0]) && Valid(Next(s, es[0]), es[1..]))
  }

  function After(s: State, es: seq<Event>): State
    requires Valid(s, es)
    decreases |es|
  {
    if es == [] then s else After(Next(s, es[0]), es[1..])
  }

  /** The sessions with that label. */
  function Labelled(sessions: map<nat, string>, name: string): set<nat> {
    set h | h in sessions && sessions[h] == name
  }

  predicate InSession(p: Phase) {
    p.Counted? || p.Listening? || p.Leaving?
  }

  ghost predicate CountsOk(r: Relay) {
    && r.inflight == |r.sessions|
    && forall name :: Times(r.methods, name) == |Labelled(r.sessions, name)|
  }

  predicate EntriesOk(s: State) {
    && (forall h :: h in s.relay.sessions ==> h < |s.requests| && s.relay.sessions[h] == s.requests[h].name)
    && (forall h :: h in s.relay.pending ==> h < |s.requests|)
    && (forall h :: 0 <= h < |s.requests| ==>
          && (h in s.relay.sessions <==> InSession(s.requests[h].phase))
          && (h in s.relay.pending <==> s.requests[h].phase.Listening?))
  }

  ghost predicate Inv(s: State) {
    CountsOk(s.relay) && EntriesOk(s) && (s.limit > 0 ==> s.relay.inflight <= s.limit)
  }

  lemma LabelledAdd(sessions: map<nat, string>, h: nat, name: string, l: string)
    requires h !in sessions
    ensures h !in Labelled(sessions, l)
    ensures Labelled(sessions[h := name], l) == if l == name then Labelled(sessions, l) + {h} else Labelled(sessions, l)
  {
  }

  lemma AdmitKeepsCounts(r: Relay, h: nat, name: string)
    requires CountsOk(r) && h !in r.sessions
    ensures CountsOk(Admitted(r, h, name))
  {
    var r' := Admitted(r, h, name);
    forall l ensures Times(r'.methods, l) == |Labelled(r'.sessions, l)| {
      LabelledAdd(r.sessions, h, name, l);
    }
  }

  lemma ReleaseKeepsCounts(r: Relay, h: nat, name: string)
    requires CountsOk(r) && h in r.sessions && r.sessions[h] == name
    ensures CountsOk(Released(r, h, name))
  {
    var r' := Released(r, h, name);
    assert r.sessions == r'.sessions[h := name];
    forall l ensures Times(r'.methods, l) == |Labelled(r'.sessions, l)| {
      assert Labelled(r'.sessions, l) == if l == name then Labelled(r.sessions, l) - {h} else Labelled(r.sessions, l);
    }
  }

  lemma StepKeepsEntries(s: State, e: Event)
    requires EntriesOk(s) && Enabled(s, e)
    ensures EntriesOk(Next(s, e))
  {
  }

  lemma StepKeepsInv(s: State, e: Event)
    requires Inv(s) && Enabled(s, e)
    ensures Inv(Next(s, e))
  {
    StepKeepsEntries(s, e);
    match e
    case Admit(h) => if !Full(s.relay, s.limit) { AdmitKeepsCounts(s.relay, h, s.requests[h].name); }
    case Release(h) => ReleaseKeepsCounts(s.relay, h, s.requests[h].name);
    case _ =>
  }

  lemma {:induction false} RunKeepsInv(s: State, es: seq<Event>)
    requires Inv(s) && Valid(s, es)
    ensures Inv(After(s, es)) && After(s, es).limit == s.limit
    decreases |es|
  {
    if es != [] {
      StepKeepsInv(s, es[0]);
      RunKeepsInv(Next(s, es[0]), es[1..]);
    }
  }

  /** At every step of every interleaving the counters agree with the sessions, the limit holds,
      and only sessions have a channel. */
  lemma {:induction false} CountersAgree(limit: int, es: seq<Event>)
    requires Valid(Init(limit), es)
    ensures var r := After(Init(limit), es).relay;
      && r.inflight == |r.sessions|
      && (forall name :: Times(r.methods, name) == |Labelled(r.sessions, name)|)
      && (limit > 0 ==> r.inflight <= limit)
      && r.pending <= r.sessions.Keys
  {
    RunKeepsInv(Init(limit), es);
  }

  /** In every run a request is refused if and only if as many sessions are open as a positive
      limit allows. */
  lemma {:induction false} RefusedIffFull(limit: int, es: seq<Event>, h: nat)
    requires Valid(Init(limit), es) && Enabled(After(Init(limit), es), Admit(h))
    ensures var s := After(Init(limit), es);
      && (Next(s, Admit(h)).requests[h].phase.Refused? <==> limit > 0 && |s.relay.sessions| == limit)
      && (Next(s, Admit(h)).requests[h].phase.Refused? || Next(s, Admit(h)).requests[h].phase.Counted?)
  {
    RunKeepsInv(Init(limit), es);
  }

  /** When every request is over, everything counted has been counted back. */
  lemma {:induction false} AllCountedBack(limit: int, es: seq<Event>)
    requires Valid(Init(limit), es)
    requires forall q :: q in After(Init(limit), es).requests ==> !InSession(q.phase)
    ensures var r := After(Init(limit), es).relay;
      r.inflight == 0 && r.sessions == map[] && r.pending == {} && forall name :: Times(r.methods, name) == 0
  {
    var s := After(Init(limit), es);
    RunKeepsInv(Init(limit), es);
    forall h | 0 <= h < |s.requests| ensures h !in s.relay.sessions && h !in s.relay.pending {
      assert s.requests[h] in s.requests;
    }
    assert s.relay.sessions == map[];
    forall name ensures Times(s.relay.methods, name) == 0 {
      assert Labelled(s.relay.sessions, name) == {};
    }
  }
}
