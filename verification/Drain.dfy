/**
  The counter of requests that hold up draining (sdk/base/inflight/inflight.go).

  Channels are numbered as they are made; `closes` says how often each was closed, and closing
  one twice would be a panic.
*/
module Drain {
  import opened Wrappers

  datatype State = State(count: nat, zero: Option<nat>, closes: seq<nat>)

  datatype Event = Inc | Dec | Wait

  function Init(): State {
    State(0, None, [])
  }

  /** A new current channel, open. */
  function Renewed(s: State): State {
    s.(zero := Some(|s.closes|), closes := s.closes + [0])
  }

  function CloseZero(s: State): State {
    if s.zero.Some? && s.zero.value < |s.closes|
    then s.(closes := s.closes[s.zero.value := s.closes[s.zero.value] + 1])
    else s
  }

  /** The first use of the counter makes the first channel. */
  function Started(s: State): State {
    if s.zero.Some? then s else if s.count == 0 then CloseZero(Renewed(s)) else Renewed(s)
  }

  function Next(s: State, e: Event): State {
    var s1 := Started(s);
    match e
    case Wait => s1
    case Inc => (if s1.count == 0 then Renewed(s1) else s1).(count := s1.count + 1)
    case Dec =>
      if s1.count == 0 then s1
      else if s1.count == 1 then CloseZero(s1.(count := 0))
      else s1.(count := s1.count - 1)
  }

  function After(s: State, es: seq<Event>): State
    decreases |es|
  {
    if es == [] then s else Next(After(s, es[..|es| - 1]), es[|es| - 1])
  }

  class Counter {
    var count: nat
    var zero: Option<nat>
    var closes: seq<nat>

    ghost function View(): State
      reads this
    {
      State(count, zero, closes)
    }

    constructor ()
      ensures View() == Init()
    {
      count, zero, closes := 0, None, [];
    }

    method Start()
      modifies this
      ensures View() == Started(old(View()))
    {
      if zero.None? {
        zero, closes := Some(|closes|), closes + [0];
        if count == 0 {
          closes := closes[zero.value := closes[zero.value] + 1];
        }
      }
    }

    method Inc()
      modifies this
      ensures View() == Next(old(View()), Event.Inc)
    {
      Start();
      if count == 0 {
        zero, closes := Some(|closes|), closes + [0];
      }
      count := count + 1;
    }

    method Dec()
      requires zero.Some? ==> zero.value < |closes|
      modifies this
      ensures View() == Next(old(View()), Event.Dec)
    {
      Start();
      if count > 0 {
        count := count - 1;
        if count == 0 {
          closes := closes[zero.value := closes[zero.value] + 1];
        }
      }
    }

    /** The channel that WaitForZero waits on. */
    method ZeroChannel() returns (ch: nat)
      requires zero.Some? ==> zero.value < |closes|
      modifies this
      ensures View() == Next(old(View()), Wait) && zero == Some(ch)
    {
      Start();
      ch := zero.value;
    }
  }

  // ---------------------------------------------------------------- every run

  /** Every channel but the current one is closed, once; the current one is closed exactly when
      the count is zero. */
  predicate Inv(s: State) {
    && (s.zero.None? ==> s.count == 0 && s.closes == [])
    && (s.zero.Some? ==> s.zero.value + 1 == |s.closes|)
    && forall i :: 0 <= i < |s.closes| ==> s.closes[i] == (if s.zero == Some(i) && s.count > 0 then 0 else 1)
  }

  lemma StepKeepsInv(s: State, e: Event)
    requires Inv(s)
    ensures Inv(Next(s, e)) && Next(s, e).zero.Some?
  {
  }

  lemma {:induction false} RunKeepsInv(s: State, es: seq<Event>)
    requires Inv(s)
    ensures Inv(After(s, es))
    decreases |es|
  {
    if es != [] {
      RunKeepsInv(s, es[..|es| - 1]);
      StepKeepsInv(After(s, es[..|es| - 1]), es[|es| - 1]);
    }
  }

  /** In every run: no channel is closed twice, and the current one is closed if and only if the
      count is zero. */
  lemma {:induction false} ZeroChannelTellsZero(es: seq<Event>)
    ensures var s := After(Init(), es);
      && (forall i :: 0 <= i < |s.closes| ==> s.closes[i] <= 1)
      && (s.zero.Some? ==> s.zero.value < |s.closes| && (s.closes[s.zero.value] == 1 <==> s.count == 0))
      && (es != [] ==> s.zero.Some?)
  {
    RunKeepsInv(Init(), es);
    if es != [] {
      RunKeepsInv(Init(), es[..|es| - 1]);
      StepKeepsInv(After(Init(), es[..|es| - 1]), es[|es| - 1]);
    }
  }

  predicate WasZero(s: State, es: seq<Event>, n: nat)
    requires n <= |es|
  {
    After(s, es[..n]).count == 0
  }

  ghost predicate EverZero(s: State, es: seq<Event>) {
    exists n :: 0 <= n <= |es| && WasZero(s, es, n)
  }

  lemma EverZeroNext(s: State, es: seq<Event>)
    requires es != []
    ensures EverZero(s, es) <==> EverZero(s, es[..|es| - 1]) || After(s, es).count == 0
  {
    var init := es[..|es| - 1];
    assert es[..|es|] == es;
    assert forall n :: 0 <= n <= |init| ==> init[..n] == es[..n];
    if EverZero(s, init) {
      var n :| 0 <= n <= |init| && WasZero(s, init, n);
      assert WasZero(s, es, n);
    } else if EverZero(s, es) {
      var n :| 0 <= n <= |es| && WasZero(s, es, n);
      assert n <= |init| ==> WasZero(s, init, n);
    }
    assert After(s, es).count == 0 <==> WasZero(s, es, |es|);
  }

  /** A channel that is no longer current is closed, and stays so. */
  lemma ChannelStep(s: State, e: Event, ch: nat)
    requires Inv(s) && ch < |s.closes|
    ensures var s' := Next(s, e);
      && ch < |s'.closes|
      && (s'.closes[ch] == 1 <==> s.closes[ch] == 1 || s'.count == 0)
  {
  }

  /** A channel handed to a waiter is closed if and only if the count has been zero at some
      moment since. */
  lemma {:induction false} WaiterWakesIff(s: State, es: seq<Event>, ch: nat)
    requires Inv(s) && s.zero == Some(ch)
    ensures var s' := After(s, es); ch < |s'.closes| && (s'.closes[ch] == 1 <==> EverZero(s, es))
    decreases |es|
  {
    if es == [] {
      assert EverZero(s, es) <==> WasZero(s, es, 0);
    } else {
      var init := es[..|es| - 1];
      WaiterWakesIff(s, init, ch);
      RunKeepsInv(s, init);
      ChannelStep(After(s, init), es[|es| - 1], ch);
      EverZeroNext(s, es);
    }
  }

  function Count(es: seq<Event>, e: Event): nat {
    if es == [] then 0 else Count(es[..|es| - 1], e) + if es[|es| - 1] == e then 1 else 0
  }

  /** No request ends before it began. */
  predicate Paired(es: seq<Event>) {
    es != [] ==> Paired(es[..|es| - 1]) && Count(es, Dec) <= Count(es, Inc)
  }

  /** The count is the number of requests that are running. */
  lemma {:induction false} CountsRunning(es: seq<Event>)
    requires Paired(es)
    ensures After(Init(), es).count == Count(es, Inc) - Count(es, Dec)
    decreases |es|
  {
    if es != [] {
      CountsRunning(es[..|es| - 1]);
    }
  }
}
