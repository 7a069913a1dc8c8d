/**
  The collector of HandlePartitionedJob, and what a whole partitioned run returns: for every
  split, failure schedule and arrival order the same answer as one worker gives
  (sdk/base/worker/partition.go, modules/llm/ext/openai/partition.go).
*/
module PartitionEngine {
  import opened Wrappers
  import opened Sequences
  import opened GoInts
  import A = Apportion
  import P = RetryPool
  import E = EmbeddingJob

  type Post<O> = P.Post<E.Reply<O>>

  /** Every post names a task, and the tasks lie within the request. */
  predicate Addressed<O>(tasks: seq<A.Task>, posts: seq<Post<O>>, size: nat) {
    && (forall i :: 0 <= i < |tasks| ==> 0 <= tasks[i].start <= size)
    && (forall n :: 0 <= n < |posts| ==> posts[n].chunk < |tasks|)
  }

  datatype Collected<O> = Collected(ok: bool, gathered: E.Gathered<O>)

  /** Results are appended in arrival order, up to the first that is not a reply. */
  function Collect<O>(tasks: seq<A.Task>, posts: seq<Post<O>>, g: E.Gathered<O>): Collected<O>
    requires Addressed(tasks, posts, |g.final|)
  {
    if posts == [] then Collected(true, g)
    else if !posts[0].Reply? then Collected(false, g)
    else Collect(tasks, posts[1..], E.Appended(g, posts[0].reply, tasks[posts[0].chunk].start))
  }

  method CollectResults<I, O>(job: E.Job<I, O>, tasks: seq<A.Task>, posts: seq<Post<O>>) returns (ok: bool)
    requires job.Valid() && Addressed(tasks, posts, |job.inputs|)
    modifies job, job.final
    ensures job.Valid() && Collected(ok, job.Contents()) == Collect(tasks, posts, old(job.Contents()))
  {
    var i := 0;
    while i < |posts|
      invariant i <= |posts| && job.Valid() && |job.Contents().final| == |job.inputs|
      invariant Addressed(tasks, posts[i..], |job.inputs|)
      invariant Collect(tasks, posts, old(job.Contents())) == Collect(tasks, posts[i..], job.Contents())
    {
      assert posts[i..][0] == posts[i] && posts[i..][1..] == posts[i + 1..];
      var r := posts[i];
      if !r.Reply? {
        return false;
      }
      job.Append(r.reply, tasks[r.chunk].start);
      i := i + 1;
    }
    ok := true;
  }

  // ---------------------------------------------------------------- arrival order does not matter

  predicate InTask(t: A.Task, j: int) {
    t.start <= j < t.start + t.count
  }

  predicate Covered(tasks: seq<A.Task>, done: set<nat>, j: int) {
    exists c :: 0 <= c < |tasks| && c in done && InTask(tasks[c], j)
  }

  function ChunkOf<I>(inputs: seq<I>, t: A.Task): seq<I>
    requires 0 <= t.start && 0 <= t.count && t.start + t.count <= |inputs|
  {
    inputs[t.start..t.start + t.count]
  }

  ghost predicate TasksWithin(tasks: seq<A.Task>, size: nat) {
    forall i :: 0 <= i < |tasks| ==>
      0 <= tasks[i].start && 0 <= tasks[i].count && tasks[i].start + tasks[i].count <= size
  }

  function TaskUsages<I>(u: I -> E.Usage, inputs: seq<I>, tasks: seq<A.Task>): (us: seq<E.Usage>)
    requires TasksWithin(tasks, |inputs|)
    ensures |us| == |tasks|
    ensures forall i :: 0 <= i < |tasks| ==> us[i] == E.Total(u, ChunkOf(inputs, tasks[i]))
  {
    seq(|tasks|, i requires 0 <= i < |tasks| => E.Total(u, ChunkOf(inputs, tasks[i])))
  }

  /** The usage of the chunks in `done`, from chunk i on. */
  function UsageOf(us: seq<E.Usage>, done: set<nat>, i: nat): E.Usage
    requires i <= |us|
    decreases |us| - i
  {
    if i == |us| then E.NoUsage()
    else E.Plus(if i in done then us[i] else E.NoUsage(), UsageOf(us, done, i + 1))
  }

  lemma {:induction false} UsageOfMore(us: seq<E.Usage>, done: set<nat>, i: nat, c: nat)
    requires i <= |us| && c < |us| && c !in done
    ensures UsageOf(us, done + {c}, i)
         == if i <= c then E.Plus(UsageOf(us, done, i), us[c]) else UsageOf(us, done, i)
    decreases |us| - i
  {
    if i < |us| {
      UsageOfMore(us, done, i + 1, c);
      var rest := UsageOf(us, done, i + 1);
      var own := if i in done then us[i] else E.NoUsage();
      assert UsageOf(us, done, i) == E.Plus(own, rest);
      if i == c {
        assert UsageOf(us, done + {c}, i) == E.Plus(us[c], rest);
        E.PlusLaws(us[c], rest, rest);
      } else {
        assert i in done + {c} <==> i in done;
        E.PlusLaws(own, rest, us[c]);
      }
    }
  }

  lemma {:induction false} UsageOfNone(us: seq<E.Usage>, done: set<nat>, i: nat)
    requires i <= |us| && forall c :: 0 <= c < |us| ==> c !in done
    ensures UsageOf(us, done, i) == E.NoUsage()
    decreases |us| - i
  {
    if i < |us| { UsageOfNone(us, done, i + 1); }
  }

  lemma SplitAt<I>(xs: seq<I>, a: nat, b: nat)
    requires a <= b <= |xs|
    ensures xs[a..] == xs[a..b] + xs[b..]
  {
  }

  lemma {:induction false} UsageOfAll<I>(
      u: I -> E.Usage, inputs: seq<I>, tasks: seq<A.Task>, done: set<nat>, i: nat, at: nat)
    requires i <= |tasks| && TasksWithin(tasks, |inputs|) && at <= |inputs|
    requires A.Tiles(tasks[i..], at, |inputs|)
    requires forall c :: 0 <= c < |tasks| ==> c in done
    ensures UsageOf(TaskUsages(u, inputs, tasks), done, i) == E.Total(u, inputs[at..])
    decreases |tasks| - i
  {
    if i == |tasks| {
      assert inputs[at..] == [];
    } else {
      var t := tasks[i];
      assert tasks[i..][0] == t && tasks[i..][1..] == tasks[i + 1..];
      UsageOfAll(u, inputs, tasks, done, i + 1, at + t.count);
      SplitAt(inputs, at, at + t.count);
      E.TotalConcat(u, ChunkOf(inputs, t), inputs[at + t.count..]);
      var us := TaskUsages(u, inputs, tasks);
      assert UsageOf(us, done, i) == E.Plus(us[i], UsageOf(us, done, i + 1));
    }
  }

  /** What has been gathered once the chunks in `done` have been appended. */
  ghost predicate Gathering<I(!new), O>(
      f: I -> O, u: I -> E.Usage, inputs: seq<I>, tasks: seq<A.Task>, done: set<nat>, g: E.Gathered<O>) {
    && |g.final| == |inputs| && TasksWithin(tasks, |inputs|)
    && (forall j :: 0 <= j < |inputs| ==> g.final[j] == if Covered(tasks, done, j) then Some(f(inputs[j])) else None)
    && g.usage == UsageOf(TaskUsages(u, inputs, tasks), done, 0)
  }

  lemma CoveredMore(tasks: seq<A.Task>, done: set<nat>, c: nat, j: int)
    requires c < |tasks|
    ensures Covered(tasks, done + {c}, j) <==> Covered(tasks, done, j) || InTask(tasks[c], j)
  {
    if InTask(tasks[c], j) {
      assert c in done + {c};
    } else if Covered(tasks, done, j) {
      var d :| 0 <= d < |tasks| && d in done && InTask(tasks[d], j);
      assert d in done + {c};
    }
  }

  /** A faithful reply fills the slots of its task, and no others. */
  lemma AppendedSlot<I(!new), O>(
      f: I -> O, u: I -> E.Usage, inputs: seq<I>, t: A.Task, g: E.Gathered<O>, r: E.Reply<O>, j: nat)
    requires 0 <= t.start && 0 <= t.count && t.start + t.count <= |inputs| == |g.final| && j < |inputs|
    requires E.Faithful(f, u, ChunkOf(inputs, t), r)
    ensures E.Appended(g, r, t.start).final[j] == if InTask(t, j) then Some(f(inputs[j])) else g.final[j]
  {
    if InTask(t, j) {
      assert ChunkOf(inputs, t)[j - t.start] == inputs[j];
    }
  }

  lemma AppendChunk<I(!new), O>(
      f: I -> O, u: I -> E.Usage, inputs: seq<I>, tasks: seq<A.Task>, done: set<nat>, g: E.Gathered<O>, c: nat,
      r: E.Reply<O>)
    requires Gathering(f, u, inputs, tasks, done, g)
    requires c < |tasks| && c !in done && E.Faithful(f, u, ChunkOf(inputs, tasks[c]), r)
    ensures Gathering(f, u, inputs, tasks, done + {c}, E.Appended(g, r, tasks[c].start))
  {
    var g' := E.Appended(g, r, tasks[c].start);
    forall j | 0 <= j < |inputs|
      ensures g'.final[j] == if Covered(tasks, done + {c}, j) then Some(f(inputs[j])) else None
    {
      AppendedSlot(f, u, inputs, tasks[c], g, r, j);
      CoveredMore(tasks, done, c, j);
    }
    UsageOfMore(TaskUsages(u, inputs, tasks), done, 0, c);
  }

  ghost predicate AllFaithful<I(!new), O>(
      f: I -> O, u: I -> E.Usage, inputs: seq<I>, tasks: seq<A.Task>, posts: seq<Post<O>>)
    requires TasksWithin(tasks, |inputs|)
  {
    forall n :: 0 <= n < |posts| && posts[n].Reply? ==>
      posts[n].chunk < |tasks| && E.Faithful(f, u, ChunkOf(inputs, tasks[posts[n].chunk]), posts[n].reply)
  }

  ghost predicate OncePerChunk<O>(posts: seq<Post<O>>) {
    forall m, n :: 0 <= m < n < |posts| ==> posts[m].chunk != posts[n].chunk
  }

  function ChunksIn<O>(posts: seq<Post<O>>): set<nat> {
    set n | 0 <= n < |posts| :: posts[n].chunk
  }

  lemma ChunksOfTail<O>(posts: seq<Post<O>>, done: set<nat>)
    requires posts != []
    ensures done + {posts[0].chunk} + ChunksIn(posts[1..]) == done + ChunksIn(posts)
  {
    assert forall n :: 0 <= n < |posts[1..]| ==> posts[1..][n] == posts[n + 1];
    assert forall n :: 0 < n < |posts| ==> posts[n] == posts[1..][n - 1];
  }

  lemma TailStaysOk<I(!new), O>(
      f: I -> O, u: I -> E.Usage, inputs: seq<I>, tasks: seq<A.Task>, done: set<nat>, posts: seq<Post<O>>)
    requires TasksWithin(tasks, |inputs|) && posts != []
    requires AllFaithful(f, u, inputs, tasks, posts) && OncePerChunk(posts)
    requires forall n :: 0 <= n < |posts| ==> posts[n].chunk !in done
    ensures AllFaithful(f, u, inputs, tasks, posts[1..]) && OncePerChunk(posts[1..])
    ensures forall n :: 0 <= n < |posts[1..]| ==> posts[1..][n].chunk !in done + {posts[0].chunk}
  {
    assert forall n :: 0 <= n < |posts[1..]| ==> posts[1..][n] == posts[n + 1];
  }

  lemma {:induction false} CollectGathers<I(!new), O>(
      f: I -> O, u: I -> E.Usage, inputs: seq<I>, tasks: seq<A.Task>, done: set<nat>, posts: seq<Post<O>>,
      g: E.Gathered<O>)
    requires Addressed(tasks, posts, |g.final|) && Gathering(f, u, inputs, tasks, done, g)
    requires AllFaithful(f, u, inputs, tasks, posts) && OncePerChunk(posts)
    requires forall n :: 0 <= n < |posts| ==> posts[n].chunk !in done
    ensures var r := Collect(tasks, posts, g);
            r.ok ==> Gathering(f, u, inputs, tasks, done + ChunksIn(posts), r.gathered)
    decreases |posts|
  {
    if posts == [] {
      assert done + ChunksIn(posts) == done;
    } else if posts[0].Reply? {
      var c := posts[0].chunk;
      AppendChunk(f, u, inputs, tasks, done, g, c, posts[0].reply);
      TailStaysOk(f, u, inputs, tasks, done, posts);
      CollectGathers(f, u, inputs, tasks, done + {c}, posts[1..], E.Appended(g, posts[0].reply, tasks[c].start));
      ChunksOfTail(posts, done);
    }
  }

  // ---------------------------------------------------------------- the whole run

  predicate AllReplies<O>(posts: seq<Post<O>>) {
    forall n :: 0 <= n < |posts| ==> posts[n].Reply?
  }

  lemma {:induction false} CollectOkIff<O>(tasks: seq<A.Task>, posts: seq<Post<O>>, g: E.Gathered<O>)
    requires Addressed(tasks, posts, |g.final|)
    ensures Collect(tasks, posts, g).ok <==> AllReplies(posts)
    decreases |posts|
  {
    if posts != [] && posts[0].Reply? {
      var tail := posts[1..];
      assert forall n :: 0 <= n < |tail| ==> tail[n] == posts[n + 1];
      CollectOkIff(tasks, tail, E.Appended(g, posts[0].reply, tasks[posts[0].chunk].start));
    }
  }

  /** If every chunk has posted one reply, in whatever order, each slot is written by exactly
      one of them and the answer is complete. */
  lemma {:induction false} AnyOrderIsComplete<I(!new), O>(
      f: I -> O, u: I -> E.Usage, inputs: seq<I>, tasks: seq<A.Task>, posts: seq<Post<O>>)
    requires A.Tiles(tasks, 0, |inputs|) && TasksWithin(tasks, |inputs|)
    requires Addressed(tasks, posts, |inputs|) && AllFaithful(f, u, inputs, tasks, posts)
    requires OncePerChunk(posts) && |posts| == |tasks|
    ensures var r := Collect(tasks, posts, E.Blank(|inputs|));
            r.ok ==> E.Complete(f, u, inputs, r.gathered)
    ensures forall j :: 0 <= j < |inputs| ==> WrittenOnce(tasks, posts, j)
  {
    var done := {} + ChunksIn(posts);
    var g := E.Blank<O>(|inputs|);
    EveryChunkPosted(tasks, posts);
    UsageOfNone(TaskUsages(u, inputs, tasks), {}, 0);
    CollectGathers(f, u, inputs, tasks, {}, posts, g);
    assert tasks[0..] == tasks && inputs[0..] == inputs;
    UsageOfAll(u, inputs, tasks, done, 0, 0);
    forall j | 0 <= j < |inputs| ensures Covered(tasks, done, j) && WrittenOnce(tasks, posts, j) {
      CoveredAndWrittenOnce(tasks, posts, |inputs|, j);
    }
  }

  lemma CoveredAndWrittenOnce<O>(tasks: seq<A.Task>, posts: seq<Post<O>>, size: nat, j: nat)
    requires A.Tiles(tasks, 0, size) && OncePerChunk(posts) && j < size
    requires forall c :: 0 <= c < |tasks| ==> c in ChunksIn(posts)
    ensures Covered(tasks, {} + ChunksIn(posts), j) && WrittenOnce(tasks, posts, j)
  {
    var c := A.TilesCoverOnce(tasks, 0, size, j);
    assert c in ChunksIn(posts) && InTask(tasks[c], j);
    var n :| 0 <= n < |posts| && posts[n].chunk == c;
    assert Writes(tasks, posts, n, j);
    forall m | Writes(tasks, posts, m, j) ensures m == n {
      var c' := posts[m].chunk;
      assert InTask(tasks[c'], j);
      assert c' == c;
      OneWriter(posts, m, n);
    }
  }

  lemma OneWriter<O>(posts: seq<Post<O>>, m: int, n: int)
    requires OncePerChunk(posts) && 0 <= m < |posts| && 0 <= n < |posts| && posts[m].chunk == posts[n].chunk
    ensures m == n
  {
  }

  predicate Writes<O>(tasks: seq<A.Task>, posts: seq<Post<O>>, n: int, j: int) {
    0 <= n < |posts| && posts[n].chunk < |tasks| && InTask(tasks[posts[n].chunk], j)
  }

  ghost predicate WrittenOnce<O>(tasks: seq<A.Task>, posts: seq<Post<O>>, j: int) {
    exists n :: Writes(tasks, posts, n, j) && forall m :: m != n ==> !Writes(tasks, posts, m, j)
  }

  /** k distinct chunk numbers below k are all of them. */
  lemma EveryChunkPosted<O>(tasks: seq<A.Task>, posts: seq<Post<O>>)
    requires OncePerChunk(posts) && |posts| == |tasks|
    requires forall n :: 0 <= n < |posts| ==> posts[n].chunk < |tasks|
    ensures forall c :: 0 <= c < |tasks| ==> c in ChunksIn(posts)
  {
    var ids := P.PostedChunks(posts);
    SizeOfElements(ids);
    assert Elements(ids) == ChunksIn(posts);
    P.SubsetSize(ChunksIn(posts), P.Pool(|tasks|));
  }

  // ---------------------------------------------------------------- split, retry and collect together

  function Counts(tasks: seq<A.Task>): (cs: seq<int>)
    ensures |cs| == |tasks| && forall i :: 0 <= i < |tasks| ==> cs[i] == tasks[i].count
  {
    seq(|tasks|, i requires 0 <= i < |tasks| => tasks[i].count)
  }

  type Results<O> = P.State<E.Reply<O>>

  /** The collector has one result per task, or its last one was not a reply. */
  predicate Returned<O>(k: nat, s: Results<O>) {
    0 < s.taken <= |s.posts| && (s.taken == k || !s.posts[s.taken - 1].Reply?)
  }

  /** A run over a split after which HandlePartitionedJob returns. */
  ghost predicate FinishedRun<O>(size: nat, ws: seq<int>, tasks: seq<A.Task>, es: seq<P.Event<E.Reply<O>>>) {
    && ws != [] && A.Split(size, ws, Wrap(A.Sum(ws)), 0) == Some(tasks)
    && P.Valid(P.Init(Counts(tasks)), es)
    && Returned(|tasks|, P.After(P.Init(Counts(tasks)), es))
  }

  function FinalState<O>(tasks: seq<A.Task>, es: seq<P.Event<E.Reply<O>>>): Results<O>
    requires P.Valid(P.Init(Counts(tasks)), es)
  {
    P.After(P.Init(Counts(tasks)), es)
  }

  ghost predicate Settled<O>(size: nat, tasks: seq<A.Task>, s: Results<O>) {
    && A.Tiles(tasks, 0, size) && TasksWithin(tasks, size)
    && |s.chunks| == |tasks| && Returned(|tasks|, s) && P.StopsAtFailure(s)
    && (forall i :: 0 <= i < |tasks| ==> s.chunks[i].count == tasks[i].count)
    && P.ResultsSafe(s)
  }

  lemma FinishedIsSettled<O>(size: nat, ws: seq<int>, tasks: seq<A.Task>, es: seq<P.Event<E.Reply<O>>>)
    requires FinishedRun(size, ws, tasks, es)
    ensures Settled(size, tasks, FinalState(tasks, es))
  {
    SplitWithin(size, ws, tasks);
    EngineFacts(tasks, es);
  }

  lemma SplitWithin(size: nat, ws: seq<int>, tasks: seq<A.Task>)
    requires ws != [] && A.Split(size, ws, Wrap(A.Sum(ws)), 0) == Some(tasks)
    ensures A.Tiles(tasks, 0, size) && TasksWithin(tasks, size)
  {
    A.SplitTiles(size, ws, Wrap(A.Sum(ws)), 0);
    A.TilesBounds(tasks, 0, size);
  }

  lemma EngineFacts<O>(tasks: seq<A.Task>, es: seq<P.Event<E.Reply<O>>>)
    requires P.Valid(P.Init(Counts(tasks)), es)
    ensures var s := FinalState(tasks, es);
            && |s.chunks| == |tasks| && P.StopsAtFailure(s) && P.ResultsSafe(s)
            && forall i :: 0 <= i < |tasks| ==> s.chunks[i].count == tasks[i].count
  {
    var s0 := P.Init<E.Reply<O>>(Counts(tasks));
    P.SafeInEveryRun(Counts(tasks), es);
    P.InitInv<E.Reply<O>>(Counts(tasks));
    P.RunKeepsInv(s0, es);
    P.CollectorStopsAtFailure(s0, es);
    forall i | 0 <= i < |tasks| ensures FinalState(tasks, es).chunks[i].count == tasks[i].count {
      assert s0.chunks[i].count == tasks[i].count;
    }
  }

  /** The results in the order in which the collector received them. */
  function Received<O>(s: Results<O>): seq<Post<O>>
    requires s.taken <= |s.posts|
  {
    s.posts[..s.taken]
  }

  lemma ReceivedOk<O>(size: nat, tasks: seq<A.Task>, s: Results<O>)
    requires Settled(size, tasks, s)
    ensures OncePerChunk(Received(s)) && Addressed(tasks, Received(s), size)
    ensures 0 < |Received(s)| <= |tasks| && (AllReplies(Received(s)) ==> |Received(s)| == |tasks|)
    ensures AllReplies(Received(s)) <==> Received(s)[|Received(s)| - 1].Reply?
  {
    forall n | 0 <= n < |Received(s)| ensures Received(s)[n].chunk < |tasks| {
      assert P.ResultSafe(s, s.posts[n]);
    }
  }

  ghost function Arrived<O>(
      size: nat, ws: seq<int>, tasks: seq<A.Task>, es: seq<P.Event<E.Reply<O>>>): (posts: seq<Post<O>>)
    requires FinishedRun(size, ws, tasks, es)
    ensures OncePerChunk(posts) && Addressed(tasks, posts, size)
    ensures 0 < |posts| <= |tasks| && (AllReplies(posts) ==> |posts| == |tasks|)
    ensures A.Tiles(tasks, 0, size) && TasksWithin(tasks, size)
  {
    FinishedIsSettled(size, ws, tasks, es);
    ReceivedOk(size, tasks, FinalState(tasks, es));
    Received(FinalState(tasks, es))
  }

  /** For every split, failure schedule and arrival order: the job succeeds if and only if the
      collector saw only replies; and if the replies are faithful, the answer is then complete
      and each slot was written once. */
  lemma {:induction false} PartitionedRunIsComplete<I(!new), O>(
      f: I -> O, u: I -> E.Usage, inputs: seq<I>, ws: seq<int>, tasks: seq<A.Task>, es: seq<P.Event<E.Reply<O>>>)
    requires FinishedRun(|inputs|, ws, tasks, es)
    requires AllFaithful(f, u, inputs, tasks, Arrived(|inputs|, ws, tasks, es))
    ensures var posts := Arrived(|inputs|, ws, tasks, es);
            var r := Collect(tasks, posts, E.Blank(|inputs|));
            && (r.ok <==> AllReplies(posts))
            && (r.ok ==> E.Complete(f, u, inputs, r.gathered))
            && (|posts| == |tasks| ==> forall j :: 0 <= j < |inputs| ==> WrittenOnce(tasks, posts, j))
            && (r.ok ==> |posts| == |tasks|)
  {
    var posts := Arrived(|inputs|, ws, tasks, es);
    CollectOkIff(tasks, posts, E.Blank<O>(|inputs|));
    if |posts| == |tasks| {
      AnyOrderIsComplete(f, u, inputs, tasks, posts);
    }
  }

  lemma CompleteIsUnique<I(!new), O>(
      f: I -> O, u: I -> E.Usage, inputs: seq<I>, g: E.Gathered<O>, g': E.Gathered<O>)
    requires E.Complete(f, u, inputs, g) && E.Complete(f, u, inputs, g')
    ensures g.final == g'.final && g.usage == g'.usage
  {
  }

  /** Several workers return what one worker returns. */
  lemma {:induction false} PartitionedEqualsSequential<I(!new), O>(
      f: I -> O, u: I -> E.Usage, inputs: seq<I>, ws: seq<int>, tasks: seq<A.Task>, es: seq<P.Event<E.Reply<O>>>,
      batch: nat -> int, serve: (nat, seq<I>) -> Option<E.Reply<O>>)
    requires FinishedRun(|inputs|, ws, tasks, es)
    requires AllFaithful(f, u, inputs, tasks, Arrived(|inputs|, ws, tasks, es))
    requires forall n: nat, c :: serve(n, c).Some? ==> E.Faithful(f, u, c, serve(n, c).value)
    ensures var many := Collect(tasks, Arrived(|inputs|, ws, tasks, es), E.Blank(|inputs|));
            var one := E.Sequential(inputs, batch, serve, 0, 0, E.Blank(|inputs|));
            many.ok && one.ok ==> many.gathered.final == one.gathered.final && many.gathered.usage == one.gathered.usage
  {
    var many := Collect(tasks, Arrived(|inputs|, ws, tasks, es), E.Blank(|inputs|));
    var one := E.Sequential(inputs, batch, serve, 0, 0, E.Blank(|inputs|));
    PartitionedRunIsComplete(f, u, inputs, ws, tasks, es);
    E.SequentialIsComplete(f, u, inputs, batch, serve);
    if many.ok && one.ok { CompleteIsUnique(f, u, inputs, many.gathered, one.gathered); }
  }

  /** The model name is the exception: it is the first non-empty one to arrive. */
  function FirstModel<O>(posts: seq<Post<O>>): string {
    if posts == [] then ""
    else if posts[0].Reply? && posts[0].reply.model != "" then posts[0].reply.model
    else FirstModel(posts[1..])
  }

  lemma {:induction false} ModelIsFirstToArrive<O>(tasks: seq<A.Task>, posts: seq<Post<O>>, g: E.Gathered<O>)
    requires Addressed(tasks, posts, |g.final|) && AllReplies(posts)
    ensures Collect(tasks, posts, g).gathered.model == if g.model == "" then FirstModel(posts) else g.model
    decreases |posts|
  {
    if posts != [] {
      var tail := posts[1..];
      assert forall n :: 0 <= n < |tail| ==> tail[n] == posts[n + 1];
      ModelIsFirstToArrive(tasks, tail, E.Appended(g, posts[0].reply, tasks[posts[0].chunk].start));
    }
  }

  /** What ended a job that failed: an empty chunk, or one whose every worker failed it, so
      that its requests failed as often as there are workers. */
  ghost predicate Blames<O>(tasks: seq<A.Task>, es: seq<P.Event<E.Reply<O>>>, s: Results<O>, last: Post<O>) {
    && last.chunk < |tasks| == |s.chunks|
    && match last
       case Empty(i) => tasks[i].count <= 0
       case Failed(i) => 0 < tasks[i].count && s.chunks[i].attempted == P.Pool(|tasks|) && P.Failures(es, i) == |tasks|
       case _ => false
  }

  /** If the job fails, early or not, the result that ended it says why. */
  lemma {:induction false} FailureIsExplained<O>(
      size: nat, ws: seq<int>, tasks: seq<A.Task>, es: seq<P.Event<E.Reply<O>>>)
    requires FinishedRun(size, ws, tasks, es)
    ensures var posts := Arrived(size, ws, tasks, es);
            var r := Collect(tasks, posts, E.Blank<O>(size));
            !r.ok ==> Blames(tasks, es, FinalState(tasks, es), posts[|posts| - 1])
  {
    var s := FinalState(tasks, es);
    var posts := Arrived(size, ws, tasks, es);
    FinishedIsSettled(size, ws, tasks, es);
    ReceivedOk(size, tasks, s);
    CollectOkIff(tasks, posts, E.Blank<O>(size));
    if !AllReplies(posts) {
      var last := posts[|posts| - 1];
      assert P.ResultSafe(s, s.posts[s.taken - 1]);
      FailuresOfChunk(tasks, es, last.chunk);
    }
  }

  lemma FailuresOfChunk<O>(tasks: seq<A.Task>, es: seq<P.Event<E.Reply<O>>>, i: nat)
    requires P.Valid(P.Init(Counts(tasks)), es) && i < |tasks|
    ensures i < |FinalState(tasks, es).chunks|
    ensures |FinalState(tasks, es).chunks[i].attempted| == P.Failures(es, i)
  {
    P.InitInv<E.Reply<O>>(Counts(tasks));
    P.AttemptedCountsFailures(P.Init(Counts(tasks)), es, i);
  }

  /** The exact condition: a job that returns has succeeded if and only if no chunk was empty
      and none failed as often as there are workers. */
  lemma {:induction false} OutcomeOfRun<O>(size: nat, ws: seq<int>, tasks: seq<A.Task>, es: seq<P.Event<E.Reply<O>>>)
    requires FinishedRun(size, ws, tasks, es)
    ensures Collect(tasks, Arrived(size, ws, tasks, es), E.Blank<O>(size)).ok
       <==> forall i :: 0 <= i < |tasks| ==> 0 < tasks[i].count && P.Failures(es, i) < |tasks|
  {
    var posts := Arrived(size, ws, tasks, es);
    CollectOkIff(tasks, posts, E.Blank<O>(size));
    if AllReplies(posts) {
      EveryChunkPosted(tasks, posts);
      forall i | 0 <= i < |tasks| ensures 0 < tasks[i].count && P.Failures(es, i) < |tasks| {
        RepliedChunk(size, ws, tasks, es, i);
      }
    } else {
      FailureIsExplained(size, ws, tasks, es);
    }
  }

  lemma RepliedChunk<O>(size: nat, ws: seq<int>, tasks: seq<A.Task>, es: seq<P.Event<E.Reply<O>>>, i: nat)
    requires FinishedRun(size, ws, tasks, es) && i < |tasks|
    requires AllReplies(Arrived(size, ws, tasks, es)) && i in ChunksIn(Arrived(size, ws, tasks, es))
    ensures 0 < tasks[i].count && P.Failures(es, i) < |tasks|
  {
    var s, posts := FinalState(tasks, es), Arrived(size, ws, tasks, es);
    FinishedIsSettled(size, ws, tasks, es);
    var n :| 0 <= n < |posts| && posts[n].chunk == i;
    assert P.ResultSafe(s, s.posts[n]);
    FailuresOfChunk(tasks, es, i);
  }

  ghost predicate NothingFails<O>(es: seq<P.Event<E.Reply<O>>>) {
    forall n :: 0 <= n < |es| ==> !es[n].Fail?
  }

  lemma {:induction false} NoFailures<O>(es: seq<P.Event<E.Reply<O>>>, i: nat)
    requires NothingFails(es)
    ensures P.Failures(es, i) == 0
  {
    if es != [] {
      assert !es[0].Fail?;
      assert forall n :: 0 <= n < |es[1..]| ==> es[1..][n] == es[n + 1];
      NoFailures(es[1..], i);
    }
  }

  /** When no request fails, a job that returns has succeeded if and only if no chunk was empty. */
  lemma {:induction false} FailureFreeOutcome<O>(
      size: nat, ws: seq<int>, tasks: seq<A.Task>, es: seq<P.Event<E.Reply<O>>>)
    requires FinishedRun(size, ws, tasks, es) && NothingFails(es)
    ensures Collect(tasks, Arrived(size, ws, tasks, es), E.Blank<O>(size)).ok
       <==> forall i :: 0 <= i < |tasks| ==> 0 < tasks[i].count
  {
    OutcomeOfRun(size, ws, tasks, es);
    forall i: nat ensures P.Failures(es, i) == 0 {
      NoFailures(es, i);
    }
  }

  // ---------------------------------------------------------------- on size and weights

  lemma SplitCounts(size: nat, ws: seq<int>, tasks: seq<A.Task>)
    requires ws != [] && A.AllPositive(ws) && A.Fits(size, ws)
    requires A.Split(size, ws, Wrap(A.Sum(ws)), 0) == Some(tasks)
    ensures (forall i :: 0 <= i < |tasks| ==> 0 < tasks[i].count) <==> size >= A.LeastSize(ws)
    ensures P.Mixed(Counts(tasks)) <==> 0 < size < A.LeastSize(ws)
  {
    SplitWithin(size, ws, tasks);
    A.NonEmptyIffEnough(size, ws);
    if 0 < size {
      var c := A.TilesCoverOnce(tasks, 0, size, 0);
      assert 0 < Counts(tasks)[c];
      if size < A.LeastSize(ws) {
        var m :| 0 <= m < |tasks| && tasks[m].count <= 0;
        assert Counts(tasks)[m] <= 0;
      }
    } else {
      forall i | 0 <= i < |tasks| ensures Counts(tasks)[i] == 0 {
        assert tasks[i].start + tasks[i].count <= size;
      }
    }
  }

  /** On size and weights: the goroutines of a split make progress in every run if and only if
      there is nothing to do or enough for every worker. */
  lemma {:induction false} ProgressIffEnough<O(!new)>(size: nat, ws: seq<int>, tasks: seq<A.Task>)
    requires ws != [] && A.AllPositive(ws) && A.Fits(size, ws)
    requires A.Split(size, ws, Wrap(A.Sum(ws)), 0) == Some(tasks)
    ensures (forall es: seq<P.Event<E.Reply<O>>> :: P.Valid(P.Init(Counts(tasks)), es) ==>
              P.Live(P.After(P.Init(Counts(tasks)), es)))
       <==> size == 0 || size >= A.LeastSize(ws)
  {
    SplitCounts(size, ws, tasks);
    P.ProgressIff<E.Reply<O>>(Counts(tasks));
  }

  /** On size, weights and failures: a job that returns has succeeded if and only if there was
      enough for every worker and no chunk failed as often as there are workers. */
  lemma {:induction false} OutcomeIffEnough<O>(
      size: nat, ws: seq<int>, tasks: seq<A.Task>, es: seq<P.Event<E.Reply<O>>>)
    requires FinishedRun(size, ws, tasks, es) && A.AllPositive(ws) && A.Fits(size, ws)
    ensures var ok := Collect(tasks, Arrived(size, ws, tasks, es), E.Blank<O>(size)).ok;
      && (ok <==> size >= A.LeastSize(ws) && forall i :: 0 <= i < |tasks| ==> P.Failures(es, i) < |tasks|)
      && (NothingFails(es) ==> (ok <==> size >= A.LeastSize(ws)))
  {
    SplitCounts(size, ws, tasks);
    OutcomeOfRun(size, ws, tasks, es);
    if NothingFails(es) { FailureFreeOutcome(size, ws, tasks, es); }
  }

  /** Three items over weights 1000, 1 and 1: no schedule lets the job succeed. */
  lemma {:induction false} ThreeItemsCanNeverSucceed<O>(tasks: seq<A.Task>, es: seq<P.Event<E.Reply<O>>>)
    requires FinishedRun(3, [1000, 1, 1], tasks, es)
    ensures !Collect(tasks, Arrived(3, [1000, 1, 1], tasks, es), E.Blank<O>(3)).ok
  {
    assert [1000, 1, 1][1..] == [1, 1] && [1, 1][1..] == [1];
    assert A.Sum([1]) == 1 && A.Sum([1, 1]) == 2;
    assert A.Sum([1000, 1, 1]) == 1002;
    A.EmptyChunkExample();
    OutcomeOfRun(3, [1000, 1, 1], tasks, es);
  }
}
