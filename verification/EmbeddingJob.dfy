/**
  The job that is partitioned: a list of inputs, a result slot for each, and running totals
  (modules/llm/ext/openai/partition.go).  Request and reply bodies are the values that their
  JSON carries: a chunk of the inputs one way, a Reply the other.
*/
module EmbeddingJob {
  import opened Wrappers

  datatype Usage = Usage(promptTokens: int, totalTokens: int)

  datatype Reply<O> = Reply(data: seq<O>, usage: Usage, model: string)

  /** What the job has gathered so far; None is a slot that was never written. */
  datatype Gathered<O> = Gathered(final: seq<Option<O>>, usage: Usage, model: string)

  function Plus(a: Usage, b: Usage): Usage {
    Usage(a.promptTokens + b.promptTokens, a.totalTokens + b.totalTokens)
  }

  function NoUsage(): Usage {
    Usage(0, 0)
  }

  function Min(a: int, b: int): int {
    if a < b then a else b
  }

  /** Go's copy(dst[start:], src): as many elements as fit, and no more. */
  function CopyInto<O>(dst: seq<Option<O>>, src: seq<O>, start: nat): (r: seq<Option<O>>)
    requires start <= |dst|
    ensures |r| == |dst|
    ensures forall j :: 0 <= j < |dst| ==> r[j] == if start <= j < start + |src| then Some(src[j - start]) else dst[j]
  {
    seq(|dst|, j requires 0 <= j < |dst| => if start <= j < start + |src| then Some(src[j - start]) else dst[j])
  }

  function Appended<O>(g: Gathered<O>, r: Reply<O>, start: nat): Gathered<O>
    requires start <= |g.final|
  {
    Gathered(CopyInto(g.final, r.data, start), Plus(g.usage, r.usage), if g.model == "" then r.model else g.model)
  }

  function Blank<O>(n: nat): Gathered<O> {
    Gathered(seq(n, _ => None), NoUsage(), "")
  }

  class Job<I, O> {
    const inputs: seq<I>
    const final: array<Option<O>>
    var usage: Usage
    var model: string

    ghost predicate Valid()
      reads this
    {
      final.Length == |inputs|
    }

    ghost function Contents(): Gathered<O>
      reads this, final
    {
      Gathered(final[..], usage, model)
    }

    constructor (inputs: seq<I>)
      ensures Valid() && this.inputs == inputs && fresh(final)
      ensures Contents() == Blank(|inputs|)
    {
      this.inputs := inputs;
      final := new Option<O>[|inputs|](_ => None);
      usage := NoUsage();
      model := "";
    }

    /** At most `count` inputs from `start` on, and how many they are. */
    method MakeChunk(start: nat, count: nat) returns (chunk: seq<I>, n: nat)
      ensures n == |chunk|
      ensures start <= |inputs| ==> chunk == inputs[start..Min(start + count, |inputs|)]
      ensures start >= |inputs| ==> n == 0
    {
      if start >= |inputs| {
        return [], 0;
      }
      var end := start + count;
      if end > |inputs| { end := |inputs|; }
      return inputs[start..end], end - start;
    }

    /** Nothing here compares the reply with the chunk that was asked for. */
    method Append(r: Reply<O>, start: nat)
      requires Valid() && start <= |inputs|
      modifies this, final
      ensures Valid() && Contents() == Appended(old(Contents()), r, start)
    {
      var i := 0;
      while i < |r.data| && start + i < final.Length
        invariant i <= |r.data| && start + i <= final.Length
        invariant forall j :: 0 <= j < final.Length ==>
          final[j] == if start <= j < start + i then Some(r.data[j - start]) else old(final[j])
        invariant usage == old(usage) && model == old(model)
      {
        final[start + i] := Some(r.data[i]);
        i := i + 1;
      }
      usage := Plus(usage, r.usage);
      if model == "" {
        model := r.model;
      }
      assert final[..] == CopyInto(old(final[..]), r.data, start);
    }
  }

  // ---------------------------------------------------------------- what a faithful worker answers

  function Map<I, O>(f: I -> O, xs: seq<I>): (ys: seq<O>)
    ensures |ys| == |xs|
    ensures forall i :: 0 <= i < |xs| ==> ys[i] == f(xs[i])
  {
    seq(|xs|, i requires 0 <= i < |xs| => f(xs[i]))
  }

  function Total<I>(u: I -> Usage, xs: seq<I>): Usage {
    if xs == [] then NoUsage() else Plus(u(xs[0]), Total(u, xs[1..]))
  }

  /** One result per input, computed from that input alone, and usage that adds up. */
  ghost predicate Faithful<I(!new), O>(f: I -> O, u: I -> Usage, chunk: seq<I>, r: Reply<O>) {
    r.data == Map(f, chunk) && r.usage == Total(u, chunk)
  }

  lemma {:induction false} TotalConcat<I>(u: I -> Usage, xs: seq<I>, ys: seq<I>)
    ensures Total(u, xs + ys) == Plus(Total(u, xs), Total(u, ys))
  {
    if xs == [] {
      assert xs + ys == ys;
      PlusLaws(NoUsage(), NoUsage(), Total(u, ys));
    } else {
      TotalConcat(u, xs[1..], ys);
      assert (xs + ys)[1..] == xs[1..] + ys;
      assert Total(u, xs + ys) == Plus(u(xs[0]), Plus(Total(u, xs[1..]), Total(u, ys)));
      PlusLaws(u(xs[0]), Total(u, xs[1..]), Total(u, ys));
    }
  }

  lemma PlusLaws(a: Usage, b: Usage, c: Usage)
    ensures Plus(a, Plus(b, c)) == Plus(Plus(a, b), c)
    ensures Plus(NoUsage(), c) == c == Plus(c, NoUsage())
    ensures Plus(a, b) == Plus(b, a)
  {
  }

  function PromptTokens<I>(u: I -> Usage, xs: seq<I>): int {
    if xs == [] then 0 else u(xs[0]).promptTokens + PromptTokens(u, xs[1..])
  }

  function TotalTokens<I>(u: I -> Usage, xs: seq<I>): int {
    if xs == [] then 0 else u(xs[0]).totalTokens + TotalTokens(u, xs[1..])
  }

  /** Each figure is summed on its own. */
  lemma {:induction false} TotalByFigure<I>(u: I -> Usage, xs: seq<I>)
    ensures Total(u, xs) == Usage(PromptTokens(u, xs), TotalTokens(u, xs))
  {
    if xs != [] { TotalByFigure(u, xs[1..]); }
  }

  /** The whole answer: every slot filled from its own input. */
  ghost predicate Complete<I(!new), O>(f: I -> O, u: I -> Usage, inputs: seq<I>, g: Gathered<O>) {
    && |g.final| == |inputs|
    && (forall j :: 0 <= j < |inputs| ==> g.final[j] == Some(f(inputs[j])))
    && g.usage == Total(u, inputs)
  }

  // ---------------------------------------------------------------- one worker, batch after batch

  /** `sent` is what the worker was sent, call by call, the failed call included. */
  datatype Outcome<I, O> = Outcome(ok: bool, sent: seq<seq<I>>, gathered: Gathered<O>)

  function BatchSize(preferred: int, remaining: nat): (n: nat)
    requires 0 < remaining
    ensures 0 < n <= remaining
  {
    if preferred <= 0 || preferred > remaining then remaining else preferred
  }

  function AfterSending<I, O>(sent: seq<seq<I>>, r: Outcome<I, O>): Outcome<I, O> {
    Outcome(r.ok, sent + r.sent, r.gathered)
  }

  /** The single-worker run from input `start` on.  `batch(n)` is the batch size the worker
      advertises before its n-th call, `serve(n, chunk)` its answer, None when it fails. */
  function Sequential<I, O>(
      inputs: seq<I>, batch: nat -> int, serve: (nat, seq<I>) -> Option<Reply<O>>,
      start: nat, calls: nat, g: Gathered<O>): (r: Outcome<I, O>)
    requires start <= |inputs| == |g.final|
    decreases |inputs| - start
  {
    if start == |inputs| then Outcome(true, [], g)
    else
      var n := BatchSize(batch(calls), |inputs| - start);
      var chunk := inputs[start..start + n];
      match serve(calls, chunk)
      case None => Outcome(false, [chunk], g)
      case Some(r) =>
        AfterSending([chunk], Sequential(inputs, batch, serve, start + n, calls + 1, Appended(g, r, start)))
  }

  method RunSequential<I, O>(job: Job<I, O>, batch: nat -> int, serve: (nat, seq<I>) -> Option<Reply<O>>)
    returns (ok: bool, sent: seq<seq<I>>)
    requires job.Valid()
    modifies job, job.final
    ensures job.Valid()
    ensures Outcome(ok, sent, job.Contents()) == Sequential(job.inputs, batch, serve, 0, 0, old(job.Contents()))
  {
    var size := |job.inputs|;
    var start := 0;
    sent := [];
    ghost var whole := Sequential(job.inputs, batch, serve, 0, 0, job.Contents());
    assert AfterSending([], whole) == whole;
    while start < size
      invariant start <= size && job.Valid()
      invariant whole == AfterSending(sent, Sequential(job.inputs, batch, serve, start, |sent|, job.Contents()))
    {
      var count := batch(|sent|);
      var remaining := size - start;
      if count <= 0 || count > remaining { count := remaining; }
      var served: bool;
      served, sent := SendChunk(job, start, count, sent, batch, serve);
      if !served {
        return false, sent;
      }
      start := start + count;
    }
    ok := true;
  }

  /** One call: the source leaves the loop at an empty chunk, and here there is none. */
  method SendChunk<I, O>(
      job: Job<I, O>, start: nat, count: nat, sent: seq<seq<I>>, ghost batch: nat -> int,
      serve: (nat, seq<I>) -> Option<Reply<O>>)
    returns (served: bool, sent': seq<seq<I>>)
    requires job.Valid() && start < |job.inputs| && count == BatchSize(batch(|sent|), |job.inputs| - start)
    modifies job, job.final
    ensures job.Valid() && |sent'| == |sent| + 1
    ensures AfterSending(sent, Sequential(job.inputs, batch, serve, start, |sent|, old(job.Contents())))
         == if served
            then AfterSending(sent', Sequential(job.inputs, batch, serve, start + count, |sent'|, job.Contents()))
            else Outcome(false, sent', job.Contents())
  {
    ghost var g := job.Contents();
    var chunk, n := job.MakeChunk(start, count);
    var r := serve(|sent|, chunk);
    served, sent' := r.Some?, sent + [chunk];
    if served {
      job.Append(r.value, start);
    }
    SendingOne(job.inputs, batch, serve, start, sent, g, count, job.Contents());
  }

  /** One call of the run: what is known of the rest once it has been answered, or not. */
  lemma SendingOne<I, O>(
      inputs: seq<I>, batch: nat -> int, serve: (nat, seq<I>) -> Option<Reply<O>>, start: nat, sent: seq<seq<I>>,
      g: Gathered<O>, n: nat, g': Gathered<O>)
    requires start < |inputs| == |g.final| && n == BatchSize(batch(|sent|), |inputs| - start)
    requires var answer := serve(|sent|, inputs[start..start + n]);
      g' == if answer.Some? then Appended(g, answer.value, start) else g
    ensures var chunk := inputs[start..start + n];
      AfterSending(sent, Sequential(inputs, batch, serve, start, |sent|, g))
      == if serve(|sent|, chunk).None? then Outcome(false, sent + [chunk], g')
         else AfterSending(sent + [chunk], Sequential(inputs, batch, serve, start + n, |sent| + 1, g'))
  {
    var chunk := inputs[start..start + n];
    if serve(|sent|, chunk).Some? {
      var rest := Sequential(inputs, batch, serve, start + n, |sent| + 1, g');
      assert sent + ([chunk] + rest.sent) == sent + [chunk] + rest.sent;
    }
  }

  // ---- what the worker was sent

  function Flatten<T>(xss: seq<seq<T>>): seq<T> {
    if xss == [] then [] else xss[0] + Flatten(xss[1..])
  }

  /** The chunks, end to end, are the inputs from `start` on, as far as the run came. */
  ghost predicate InOrder<I, O>(inputs: seq<I>, start: nat, r: Outcome<I, O>)
    requires start <= |inputs|
  {
    && Flatten(r.sent) <= inputs[start..]
    && (r.ok ==> Flatten(r.sent) == inputs[start..])
  }

  /** No chunk is empty, or longer than what the worker advertised if that is positive; and a
      chunk that is shorter, or sent to a worker that advertises nothing, takes all that is left. */
  ghost predicate AsAdvertised<I, O>(inputs: seq<I>, batch: nat -> int, start: nat, calls: nat, r: Outcome<I, O>)
    requires start <= |inputs|
  {
    forall n :: 0 <= n < |r.sent| ==>
      && 0 < |r.sent[n]| && (0 < batch(calls + n) ==> |r.sent[n]| <= batch(calls + n))
      && (|r.sent[n]| < batch(calls + n) || batch(calls + n) <= 0 ==>
            n == |r.sent| - 1 && Flatten(r.sent) == inputs[start..])
  }

  /** Each call but a last, failed one was answered. */
  ghost predicate AnsweredUnlessLast<I, O>(serve: (nat, seq<I>) -> Option<Reply<O>>, calls: nat, r: Outcome<I, O>) {
    && (r.ok || r.sent != [])
    && forall n :: 0 <= n < |r.sent| ==> (serve(calls + n, r.sent[n]).None? <==> !r.ok && n == |r.sent| - 1)
  }

  lemma FlattenCons<T>(xs: seq<T>, xss: seq<seq<T>>)
    ensures Flatten([xs] + xss) == xs + Flatten(xss)
  {
    assert ([xs] + xss)[1..] == xss;
  }

  lemma OrderCons<I, O>(inputs: seq<I>, start: nat, n: nat, r: Outcome<I, O>)
    requires start + n <= |inputs| && InOrder(inputs, start + n, r)
    ensures InOrder(inputs, start, AfterSending([inputs[start..start + n]], r))
    ensures Flatten(AfterSending([inputs[start..start + n]], r).sent) == inputs[start..]
       <==> Flatten(r.sent) == inputs[start + n..]
  {
    FlattenCons(inputs[start..start + n], r.sent);
    assert inputs[start..] == inputs[start..start + n] + inputs[start + n..];
    assert inputs[start..][n..] == inputs[start + n..];
  }

  lemma AdvertisedCons<I, O>(inputs: seq<I>, batch: nat -> int, start: nat, calls: nat, n: nat, r: Outcome<I, O>)
    requires start + n <= |inputs| && 0 < n
    requires InOrder(inputs, start + n, r) && AsAdvertised(inputs, batch, start + n, calls + 1, r)
    requires 0 < batch(calls) ==> n <= batch(calls)
    requires n < batch(calls) || batch(calls) <= 0 ==> start + n == |inputs|
    requires start + n == |inputs| ==> r.sent == []
    ensures AsAdvertised(inputs, batch, start, calls, AfterSending([inputs[start..start + n]], r))
  {
    var chunk := inputs[start..start + n];
    var all := AfterSending([chunk], r);
    OrderCons(inputs, start, n, r);
    assert all.sent[0] == chunk;
    forall k | 0 < k < |all.sent|
      ensures all.sent[k] == r.sent[k - 1] && calls + k == calls + 1 + (k - 1)
    {
    }
  }

  lemma AnsweredCons<I, O>(serve: (nat, seq<I>) -> Option<Reply<O>>, calls: nat, chunk: seq<I>, r: Outcome<I, O>)
    requires serve(calls, chunk).Some? && AnsweredUnlessLast(serve, calls + 1, r)
    ensures AnsweredUnlessLast(serve, calls, AfterSending([chunk], r))
  {
    var all := AfterSending([chunk], r);
    assert all.sent[0] == chunk;
    forall k | 0 < k < |all.sent|
      ensures all.sent[k] == r.sent[k - 1] && calls + k == calls + 1 + (k - 1)
    {
    }
  }

  ghost predicate SentWell<I, O>(
      inputs: seq<I>, batch: nat -> int, serve: (nat, seq<I>) -> Option<Reply<O>>, start: nat, calls: nat,
      r: Outcome<I, O>)
    requires start <= |inputs|
  {
    InOrder(inputs, start, r) && AsAdvertised(inputs, batch, start, calls, r) && AnsweredUnlessLast(serve, calls, r)
  }

  lemma SentAlone<I, O>(
      inputs: seq<I>, batch: nat -> int, serve: (nat, seq<I>) -> Option<Reply<O>>, start: nat, calls: nat, n: nat,
      g: Gathered<O>)
    requires start + n <= |inputs| && 0 < n && (0 < batch(calls) ==> n <= batch(calls))
    requires n < batch(calls) || batch(calls) <= 0 ==> start + n == |inputs|
    requires serve(calls, inputs[start..start + n]).None?
    ensures var r: Outcome<I, O> := Outcome(false, [inputs[start..start + n]], g);
      SentWell(inputs, batch, serve, start, calls, r)
  {
    FlattenCons(inputs[start..start + n], []);
    assert [inputs[start..start + n]] + [] == [inputs[start..start + n]];
    assert inputs[start..start + n] + [] == inputs[start..start + n];
    assert inputs[start..] == inputs[start..start + n] + inputs[start + n..];
  }

  lemma WellCons<I, O>(
      inputs: seq<I>, batch: nat -> int, serve: (nat, seq<I>) -> Option<Reply<O>>, start: nat, calls: nat, n: nat,
      r: Outcome<I, O>)
    requires start + n <= |inputs| && 0 < n && (0 < batch(calls) ==> n <= batch(calls))
    requires n < batch(calls) || batch(calls) <= 0 ==> start + n == |inputs|
    requires serve(calls, inputs[start..start + n]).Some?
    requires SentWell(inputs, batch, serve, start + n, calls + 1, r) && (start + n == |inputs| ==> r.sent == [])
    ensures SentWell(inputs, batch, serve, start, calls, AfterSending([inputs[start..start + n]], r))
  {
    OrderCons(inputs, start, n, r);
    AdvertisedCons(inputs, batch, start, calls, n, r);
    AnsweredCons(serve, calls, inputs[start..start + n], r);
  }

  lemma {:induction false} SentFrom<I, O>(
      inputs: seq<I>, batch: nat -> int, serve: (nat, seq<I>) -> Option<Reply<O>>, start: nat, calls: nat,
      g: Gathered<O>)
    requires start <= |inputs| == |g.final|
    ensures var r := Sequential(inputs, batch, serve, start, calls, g);
      SentWell(inputs, batch, serve, start, calls, r) && (start == |inputs| ==> r.sent == [])
    decreases |inputs| - start
  {
    if start < |inputs| {
      var n := BatchSize(batch(calls), |inputs| - start);
      var answer := serve(calls, inputs[start..start + n]);
      if answer.None? {
        SentAlone(inputs, batch, serve, start, calls, n, g);
      } else {
        var rest := Sequential(inputs, batch, serve, start + n, calls + 1, Appended(g, answer.value, start));
        SentFrom(inputs, batch, serve, start + n, calls + 1, Appended(g, answer.value, start));
        WellCons(inputs, batch, serve, start, calls, n, rest);
      }
    }
  }

  /** The single worker is sent the inputs in order, in chunks of the sizes it advertises, and
      the run stops at the first call that fails. */
  lemma {:induction false} SentAsAdvertised<I, O>(
      inputs: seq<I>, batch: nat -> int, serve: (nat, seq<I>) -> Option<Reply<O>>)
    ensures var r := Sequential(inputs, batch, serve, 0, 0, Blank(|inputs|));
      && InOrder(inputs, 0, r) && AsAdvertised(inputs, batch, 0, 0, r) && AnsweredUnlessLast(serve, 0, r)
  {
    SentFrom(inputs, batch, serve, 0, 0, Blank(|inputs|));
  }

  lemma OneBatchFewer(left: nat, b: nat)
    requires 0 < left && 0 < b
    ensures var n := if left < b then left else b; (left + b - 1) / b == 1 + (left - n + b - 1) / b
  {
    if left <= b {
      QuotientIs(left + b - 1, b, 1);
      QuotientIs(b - 1, b, 0);
    } else {
      var q := (left - 1) / b;
      QuotientIs(left + b - 1, b, q + 1);
    }
  }

  lemma BelowNext(x: nat, y: nat, b: nat)
    requires x * b < y * b + b
    ensures x <= y
  {
    var d := x - y;
    assert d * b < b by { assert d * b == x * b - y * b; }
    assert 1 < d ==> b <= d * b;
  }

  lemma QuotientIs(a: nat, b: nat, q: nat)
    requires 0 < b && q * b <= a < q * b + b
    ensures a / b == q
  {
    var r := a / b;
    assert r * b <= a < r * b + b;
    BelowNext(r, q, b);
    BelowNext(q, r, b);
  }

  lemma {:induction false} CallsFrom<I, O>(
      inputs: seq<I>, batch: nat -> int, serve: (nat, seq<I>) -> Option<Reply<O>>, start: nat, calls: nat,
      g: Gathered<O>, b: nat)
    requires start <= |inputs| == |g.final| && 0 < b && forall n: nat :: batch(n) == b
    ensures var r := Sequential(inputs, batch, serve, start, calls, g);
            r.ok ==> |r.sent| == (|inputs| - start + b - 1) / b
    decreases |inputs| - start
  {
    if start == |inputs| {
      QuotientIs(b - 1, b, 0);
    } else {
      var n := BatchSize(batch(calls), |inputs| - start);
      OneBatchFewer(|inputs| - start, b);
      var answer := serve(calls, inputs[start..start + n]);
      if answer.Some? {
        CallsFrom(inputs, batch, serve, start + n, calls + 1, Appended(g, answer.value, start), b);
      }
    }
  }

  /** A worker that always advertises b is called ceiling(|inputs| / b) times if no call fails. */
  lemma {:induction false} CallsOfConstantBatch<I, O>(
      inputs: seq<I>, batch: nat -> int, serve: (nat, seq<I>) -> Option<Reply<O>>, b: nat)
    requires 0 < b && forall n: nat :: batch(n) == b
    ensures var r := Sequential(inputs, batch, serve, 0, 0, Blank(|inputs|));
            r.ok ==> |r.sent| == (|inputs| + b - 1) / b
  {
    CallsFrom(inputs, batch, serve, 0, 0, Blank(|inputs|), b);
  }

  // ---- what it adds up to

  /** What has been gathered when the first `start` inputs are done. */
  ghost predicate DoneUpTo<I(!new), O>(f: I -> O, u: I -> Usage, inputs: seq<I>, start: nat, g: Gathered<O>) {
    && start <= |inputs| == |g.final|
    && (forall j :: 0 <= j < |inputs| ==> g.final[j] == if j < start then Some(f(inputs[j])) else None)
    && g.usage == Total(u, inputs[..start])
  }

  lemma OneMoreBatch<I(!new), O>(
      f: I -> O, u: I -> Usage, inputs: seq<I>, start: nat, n: nat, g: Gathered<O>, r: Reply<O>)
    requires DoneUpTo(f, u, inputs, start, g) && start + n <= |inputs|
    requires Faithful(f, u, inputs[start..start + n], r)
    ensures DoneUpTo(f, u, inputs, start + n, Appended(g, r, start))
  {
    TotalConcat(u, inputs[..start], inputs[start..start + n]);
    assert inputs[..start + n] == inputs[..start] + inputs[start..start + n];
  }

  lemma AllDone<I(!new), O>(f: I -> O, u: I -> Usage, inputs: seq<I>, g: Gathered<O>)
    requires DoneUpTo(f, u, inputs, |inputs|, g)
    ensures Complete(f, u, inputs, g)
  {
    assert inputs[..|inputs|] == inputs;
  }

  lemma {:induction false} SequentialFrom<I(!new), O>(
      f: I -> O, u: I -> Usage, inputs: seq<I>, batch: nat -> int, serve: (nat, seq<I>) -> Option<Reply<O>>,
      start: nat, calls: nat, g: Gathered<O>)
    requires forall n: nat, c :: serve(n, c).Some? ==> Faithful(f, u, c, serve(n, c).value)
    requires DoneUpTo(f, u, inputs, start, g)
    ensures var r := Sequential(inputs, batch, serve, start, calls, g);
            r.ok ==> Complete(f, u, inputs, r.gathered)
    decreases |inputs| - start
  {
    if start == |inputs| {
      AllDone(f, u, inputs, g);
    } else {
      var n := BatchSize(batch(calls), |inputs| - start);
      var r := serve(calls, inputs[start..start + n]);
      if r.Some? {
        OneMoreBatch(f, u, inputs, start, n, g, r.value);
        SequentialFrom(f, u, inputs, batch, serve, start + n, calls + 1, Appended(g, r.value, start));
      }
    }
  }

  /** However a faithful worker sizes its batches, a run without a failed call answers every
      input, in place, with the usage added up. */
  lemma {:induction false} SequentialIsComplete<I(!new), O>(f: I -> O, u: I -> Usage, inputs: seq<I>, batch: nat -> int,
      serve: (nat, seq<I>) -> Option<Reply<O>>)
    requires forall n: nat, c :: serve(n, c).Some? ==> Faithful(f, u, c, serve(n, c).value)
    ensures var r := Sequential(inputs, batch, serve, 0, 0, Blank(|inputs|));
            r.ok ==> Complete(f, u, inputs, r.gathered)
  {
    assert inputs[..0] == [];
    SequentialFrom(f, u, inputs, batch, serve, 0, 0, Blank(|inputs|));
  }
}
