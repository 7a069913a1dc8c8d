/**
  The goroutines that HandlePartitionedJob starts, one per chunk, as a state machine
  (sdk/base/worker/partition.go).  Each event is one critical section or one channel
  operation, so every interleaving of the goroutines is a sequence of events.
*/
module RetryPool {
  import opened Wrappers
  import opened Sequences

  /** Workers are named by their position in the pool. */
  type Worker = nat

  datatype Phase =
    | Running(w: Worker)    // holds w; the request is in flight
    | Answered(w: Worker)   // has posted its reply and still holds w
    | Releasing(ok: bool)   // has given its worker back and is about to offer the token
    | Deciding              // is about to compare its failures with the pool size
    | Checking              // is about to scan the pool for a worker
    | Waiting               // is blocked until it takes the token
    | Finished

  /** `attempted` is the source's map of workers that failed the chunk; `tried` is the
      history of the workers it ever held. */
  datatype Chunk = Chunk(count: int, phase: Phase, attempted: set<Worker>, tried: seq<Worker>)

  datatype Post<R> =
    | Reply(chunk: nat, worker: Worker, reply: R)
    | Failed(chunk: nat)
    | Empty(chunk: nat)
    | AcquireError(chunk: nat)

  /** `token` is `cond`, a channel with room for one signal: a send on a full channel is
      dropped, and any waiter may take the signal, whether or not the freed worker is of any
      use to it.  `posts` is what went into the result channel, in order; the collector has
      received the first `taken` of them. */
  datatype State<R> = State(chunks: seq<Chunk>, used: set<Worker>, token: bool, posts: seq<Post<R>>, taken: nat)

  datatype Event<R> =
    | PostEmpty(i: nat)
    | Succeed(i: nat, reply: R)
    | Fail(i: nat)
    | Release(i: nat)
    | Signal(i: nat)
    | Decide(i: nat)
    | Scan(i: nat)
    | Wake(i: nat)
    | Collect

  // ---------------------------------------------------------------- the shared pool

  function Pool(k: nat): (pool: set<Worker>)
    ensures forall w: Worker :: w in pool <==> w < k
    ensures |pool| == k
  {
    if k == 0 then {} else Pool(k - 1) + {k - 1}
  }

  predicate Free(used: set<Worker>, exclude: set<Worker>, w: Worker) {
    w !in used && w !in exclude
  }

  /** The first worker of the pool from position w on that is neither in use nor excluded. */
  function FirstFree(k: nat, w: Worker, used: set<Worker>, exclude: set<Worker>): (r: Option<Worker>)
    requires w <= k
    ensures r.Some? ==> w <= r.value < k && Free(used, exclude, r.value)
    ensures r.Some? ==> forall v :: w <= v < r.value ==> !Free(used, exclude, v)
    ensures r.None? ==> forall v :: w <= v < k ==> !Free(used, exclude, v)
    decreases k - w
  {
    if w == k then None
    else if Free(used, exclude, w) then Some(w)
    else FirstFree(k, w + 1, used, exclude)
  }

  /** The closures acquire and release share this state under a mutex. */
  class WorkerPool {
    const size: nat
    var used: set<Worker>
    var cond: bool

    constructor (size: nat)
      ensures this.size == size
      ensures used == Pool(size)
      ensures !cond
    {
      this.size := size;
      used := Pool(size);
      cond := false;
    }

    /** The critical section of acquire: one scan of the pool. */
    method TryAcquire(exclude: set<Worker>) returns (w: Option<Worker>)
      modifies this`used
      ensures w == FirstFree(size, 0, old(used), exclude)
      ensures used == if w.Some? then old(used) + {w.value} else old(used)
    {
      var i := 0;
      while i < size
        invariant i <= size && used == old(used)
        invariant FirstFree(size, 0, used, exclude) == FirstFree(size, i, used, exclude)
      {
        if i !in used && i !in exclude {
          used := used + {i};
          return Some(i);
        }
        i := i + 1;
      }
      w := None;
    }

    /** The critical section of release. */
    method GiveBack(w: Worker)
      modifies this`used
      ensures used == old(used) - {w}
    {
      used := used - {w};
    }

    /** The non-blocking send on cond: dropped when a signal is already there. */
    method Offer()
      modifies this`cond
      ensures cond
    {
      if !cond { cond := true; }
    }

    /** The receive on cond, which blocks until there is a signal. */
    method Take()
      requires cond
      modifies this`cond
      ensures !cond
    {
      cond := false;
    }
  }

  // ---------------------------------------------------------------- steps and runs

  predicate Ready<R>(c: Chunk, e: Event<R>) {
    match e
    case Collect => false
    case PostEmpty(_) => c.phase.Running? && c.count <= 0
    case Succeed(_, _) => c.phase.Running? && 0 < c.count
    case Fail(_) => c.phase.Running? && 0 < c.count
    case Release(_) => c.phase.Answered?
    case Signal(_) => c.phase.Releasing?
    case Decide(_) => c.phase.Deciding?
    case Scan(_) => c.phase.Checking?
    case Wake(_) => c.phase.Waiting?
  }

  predicate Enabled<R>(s: State<R>, e: Event<R>) {
    match e
    case Collect => s.taken < |s.posts| && (s.taken == 0 || s.posts[s.taken - 1].Reply?)
    case _ =>
      && e.i < |s.chunks| && Ready(s.chunks[e.i], e) && (e.Wake? ==> s.token)
  }

  function Next<R>(s: State<R>, e: Event<R>): State<R>
    requires Enabled(s, e)
  {
    if e.Collect? then s.(taken := s.taken + 1)
    else
      var c, k := s.chunks[e.i], |s.chunks|;
      State(s.chunks[e.i := NextChunk(k, s.used, c, e)], NextUsed(k, s.used, c, e),
            e.Signal? || (s.token && !e.Wake?), s.posts + NextPosts(k, s.used, c, e), s.taken)
  }

  /** What the goroutine of chunk c becomes. */
  function NextChunk<R>(k: nat, used: set<Worker>, c: Chunk, e: Event<R>): Chunk {
    match e
    case Collect => c
    case PostEmpty(_) => c.(phase := Finished)
    case Succeed(_, _) => if c.phase.Running? then c.(phase := Answered(c.phase.w)) else c
    case Fail(_) =>
      if c.phase.Running? then c.(phase := Releasing(false), attempted := c.attempted + {c.phase.w}) else c
    case Release(_) => c.(phase := Releasing(true))
    case Signal(_) => c.(phase := if c.phase == Releasing(true) then Finished else Deciding)
    case Decide(_) => c.(phase := if |c.attempted| >= k then Finished else Checking)
    case Scan(_) =>
      (match FirstFree(k, 0, used, c.attempted)
       case Some(w) => c.(phase := Running(w), tried := c.tried + [w])
       case None => c.(phase := if |c.attempted| >= k then Finished else Waiting))
    case Wake(_) => c.(phase := Checking)
  }

  function NextUsed<R>(k: nat, used: set<Worker>, c: Chunk, e: Event<R>): set<Worker> {
    match e
    case Fail(_) => if c.phase.Running? then used - {c.phase.w} else used
    case Release(_) => if c.phase.Answered? then used - {c.phase.w} else used
    case Scan(_) =>
      (match FirstFree(k, 0, used, c.attempted)
       case Some(w) => used + {w}
       case None => used)
    case _ => used
  }

  function NextPosts<R>(k: nat, used: set<Worker>, c: Chunk, e: Event<R>): seq<Post<R>> {
    match e
    case PostEmpty(i) => [Empty(i)]
    case Succeed(i, reply) => if c.phase.Running? then [Reply(i, c.phase.w, reply)] else []
    case Decide(i) => if |c.attempted| >= k then [Failed(i)] else []
    case Scan(i) => if FirstFree(k, 0, used, c.attempted).None? && |c.attempted| >= k then [AcquireError(i)] else []
    case _ => []
  }

  /** Chunk i starts on worker i, which is marked in use before any goroutine runs. */
  function Init<R>(counts: seq<int>): State<R> {
    State(InitChunks(counts), Pool(|counts|), false, [], 0)
  }

  function InitChunks(counts: seq<int>): (chunks: seq<Chunk>)
    ensures |chunks| == |counts|
    ensures forall i :: 0 <= i < |chunks| ==> chunks[i] == Chunk(counts[i], Running(i), {}, [i])
  {
    seq(|counts|, i requires 0 <= i < |counts| => Chunk(counts[i], Running(i), {}, [i]))
  }

  predicate Valid<R>(s: State<R>, es: seq<Event<R>>)
    decreases |es|
  {
    es == [] || (Enabled(s, es[0]) && Valid(Next(s, es[0]), es[1..]))
  }

  function After<R>(s: State<R>, es: seq<Event<R>>): State<R>
    requires Valid(s, es)
    decreases |es|
  {
    if es == [] then s else After(Next(s, es[0]), es[1..])
  }

  // ---------------------------------------------------------------- the invariant

  predicate Holds(c: Chunk, w: Worker) {
    (c.phase.Running? || c.phase.Answered?) && c.phase.w == w
  }

  /** The goroutine of an empty chunk returns without giving its worker back. */
  predicate Owns(i: nat, c: Chunk, w: Worker) {
    Holds(c, w) || (c.phase.Finished? && c.count <= 0 && w == i)
  }

  ghost predicate ChunkOk(k: nat, i: nat, c: Chunk) {
    && c.tried != [] && c.tried[0] == i
    && NoDuplicates(c.tried)
    && (forall n :: 0 <= n < |c.tried| ==> c.tried[n] < k)
    && (c.count <= 0 ==> (c.phase == Running(i) || c.phase.Finished?) && c.attempted == {})
    && match c.phase
       case Running(w) => HoldingLast(c, w) && |c.attempted| < k
       case Answered(w) => HoldingLast(c, w) && |c.attempted| < k
       case Releasing(ok) => if ok then |c.attempted| < k else c.attempted == Elements(c.tried) && |c.attempted| <= k
       case Deciding => c.attempted == Elements(c.tried) && |c.attempted| <= k
       case Checking => c.attempted == Elements(c.tried) && |c.attempted| < k
       case Waiting => c.attempted == Elements(c.tried) && |c.attempted| < k
       case Finished => true
  }

  predicate HoldingLast(c: Chunk, w: Worker)
    requires c.tried != []
  {
    c.tried[|c.tried| - 1] == w && c.attempted == Elements(c.tried[..|c.tried| - 1])
  }

  /** `used` is exactly the set of owned workers, and each has one owner. */
  ghost predicate Exclusive(chunks: seq<Chunk>, used: set<Worker>) {
    && (forall i, w: Worker :: 0 <= i < |chunks| && Owns(i, chunks[i], w) ==> w in used)
    && (forall w: Worker :: w in used ==> w < |chunks| && Owned(chunks, w))
    && (forall i, j, w: Worker :: 0 <= i < j < |chunks| && Owns(i, chunks[i], w) ==> !Owns(j, chunks[j], w))
  }

  ghost predicate Owned(chunks: seq<Chunk>, w: Worker) {
    exists i :: 0 <= i < |chunks| && Owns(i, chunks[i], w)
  }

  predicate HasPosted(c: Chunk) {
    c.phase.Answered? || c.phase.Finished? || c.phase == Releasing(true)
  }

  ghost predicate PostOk<R>(s: State<R>, p: Post<R>) {
    && p.chunk < |s.chunks| && HasPosted(s.chunks[p.chunk])
    && var c := s.chunks[p.chunk];
       match p
       case Reply(_, w, _) => 0 < c.count && w in c.tried && |c.attempted| < |s.chunks|
       case Failed(_) => 0 < c.count && c.attempted == Elements(c.tried) == Pool(|s.chunks|)
       case Empty(_) => c.count <= 0
       case AcquireError(_) => false
  }

  ghost predicate PostsOk<R>(s: State<R>) {
    && (forall n :: 0 <= n < |s.posts| ==> PostOk(s, s.posts[n]))
    && (forall m, n :: 0 <= m < n < |s.posts| ==> s.posts[m].chunk != s.posts[n].chunk)
    && (forall i :: 0 <= i < |s.chunks| && HasPosted(s.chunks[i]) ==>
          exists n :: 0 <= n < |s.posts| && s.posts[n].chunk == i)
  }

  predicate Active(c: Chunk) {
    c.phase.Running? || c.phase.Answered? || c.phase.Releasing? || c.phase.Checking?
  }

  /** No waiter is forgotten: somebody is still going to offer the token. */
  ghost predicate SomeoneWillSignal<R>(s: State<R>) {
    (exists i :: 0 <= i < |s.chunks| && s.chunks[i].phase.Waiting?)
    ==> s.token || exists j :: 0 <= j < |s.chunks| && Active(s.chunks[j])
  }

  predicate NoEmptyChunk<R>(s: State<R>) {
    forall i :: 0 <= i < |s.chunks| ==> 0 < s.chunks[i].count
  }

  ghost predicate Inv<R>(s: State<R>) {
    && (forall i :: 0 <= i < |s.chunks| ==> ChunkOk(|s.chunks|, i, s.chunks[i]))
    && Exclusive(s.chunks, s.used)
    && PostsOk(s)
    && s.taken <= |s.posts|
    && (NoEmptyChunk(s) ==> SomeoneWillSignal(s))
  }

  lemma InitInv<R>(counts: seq<int>)
    ensures Inv<R>(Init(counts))
  {
    var s := Init<R>(counts);
    forall i | 0 <= i < |s.chunks| ensures ChunkOk(|s.chunks|, i, s.chunks[i]) {
      assert s.chunks[i].tried[..0] == [];
    }
    InitExclusive(counts);
  }

  lemma InitExclusive(counts: seq<int>)
    ensures Exclusive(InitChunks(counts), Pool(|counts|))
  {
    var chunks := InitChunks(counts);
    assert forall i, w: Worker :: 0 <= i < |chunks| ==> (Owns(i, chunks[i], w) <==> w == i);
    forall w: Worker | w in Pool(|counts|) ensures Owned(chunks, w) {
      assert Owns(w, chunks[w], w);
    }
  }

  // ---------------------------------------------------------------- every step keeps it

  lemma SubsetSize(a: set<Worker>, b: set<Worker>)
    requires a <= b
    ensures |a| <= |b| && (|a| == |b| ==> a == b)
  {
    assert b == a + (b - a);
    assert |b| == |a| + |b - a|;
  }

  /** With fewer failures than workers, some worker has not failed the chunk. */
  lemma UntriedWorker(k: nat, attempted: set<Worker>) returns (w: Worker)
    requires |attempted| < k
    ensures w < k && w !in attempted
  {
    if Pool(k) <= attempted { SubsetSize(Pool(k), attempted); }
    w :| w in Pool(k) && w !in attempted;
  }

  lemma FailKeepsChunk(k: nat, i: nat, c: Chunk)
    requires ChunkOk(k, i, c) && c.phase.Running? && 0 < c.count
    ensures ChunkOk(k, i, c.(phase := Releasing(false), attempted := c.attempted + {c.phase.w}))
  {
    var n := |c.tried| - 1;
    assert c.tried == c.tried[..n] + [c.phase.w];
    assert Elements(c.tried) == Elements(c.tried[..n]) + {c.phase.w};
  }

  lemma ScanKeepsChunk(k: nat, i: nat, c: Chunk, w: Worker)
    requires ChunkOk(k, i, c) && c.phase.Checking? && w !in c.attempted && w < k
    ensures ChunkOk(k, i, c.(phase := Running(w), tried := c.tried + [w]))
  {
    var tried := c.tried + [w];
    assert tried[..|tried| - 1] == c.tried;
    assert w !in c.tried by { assert w !in Elements(c.tried); }
  }

  lemma StepKeepsChunk<R>(k: nat, used: set<Worker>, i: nat, c: Chunk, e: Event<R>)
    requires ChunkOk(k, i, c) && Ready(c, e)
    ensures ChunkOk(k, i, NextChunk(k, used, c, e))
  {
    match e {
      case Fail(_) => FailKeepsChunk(k, i, c);
      case Scan(_) =>
        var r := FirstFree(k, 0, used, c.attempted);
        if r.Some? { ScanKeepsChunk(k, i, c, r.value); }
      case _ =>
    }
  }

  predicate OwnsNothing(i: nat, c: Chunk) {
    !c.phase.Running? && !c.phase.Answered? && !(c.phase.Finished? && c.count <= 0)
  }

  lemma SameOwner(chunks: seq<Chunk>, used: set<Worker>, i: nat, c': Chunk)
    requires i < |chunks| && Exclusive(chunks, used)
    requires forall w: Worker :: Owns(i, chunks[i], w) <==> Owns(i, c', w)
    ensures Exclusive(chunks[i := c'], used)
  {
    var after := chunks[i := c'];
    forall w: Worker | w in used ensures Owned(after, w) {
      var j :| 0 <= j < |chunks| && Owns(j, chunks[j], w);
      assert Owns(j, after[j], w);
    }
  }

  lemma DropWorker(chunks: seq<Chunk>, used: set<Worker>, i: nat, w: Worker, c': Chunk)
    requires i < |chunks| && Exclusive(chunks, used) && Holds(chunks[i], w) && OwnsNothing(i, c')
    ensures Exclusive(chunks[i := c'], used - {w})
  {
    var after := chunks[i := c'];
    assert Owns(i, chunks[i], w);
    forall j, v: Worker | 0 <= j < |after| && Owns(j, after[j], v) ensures v in used - {w} {
      assert Owns(j, chunks[j], v);
    }
    forall v: Worker | v in used - {w} ensures v < |after| && Owned(after, v) {
      var j :| 0 <= j < |chunks| && Owns(j, chunks[j], v);
      assert Owns(j, after[j], v);
    }
  }

  lemma TakeWorker(chunks: seq<Chunk>, used: set<Worker>, i: nat, w: Worker, c': Chunk)
    requires i < |chunks| && Exclusive(chunks, used) && OwnsNothing(i, chunks[i])
    requires Holds(c', w) && w !in used && w < |chunks|
    ensures Exclusive(chunks[i := c'], used + {w})
  {
    var after := chunks[i := c'];
    assert Owns(i, after[i], w);
    forall j, v: Worker | 0 <= j < |after| && Owns(j, after[j], v) ensures v in used + {w} {
      if j != i { assert Owns(j, chunks[j], v); }
    }
    forall v: Worker | v in used + {w} ensures v < |after| && Owned(after, v) {
      if v != w {
        var j :| 0 <= j < |chunks| && Owns(j, chunks[j], v);
        assert Owns(j, after[j], v);
      }
    }
    forall j, l, v: Worker | 0 <= j < l < |after| && Owns(j, after[j], v) ensures !Owns(l, after[l], v) {
      if l == i { assert Owns(j, chunks[j], v); }
    }
  }

  lemma StepKeepsExclusive<R>(s: State<R>, e: Event<R>)
    requires Inv(s) && Enabled(s, e)
    ensures Exclusive(Next(s, e).chunks, Next(s, e).used)
  {
    if e.Collect? { return; }
    var i, k := e.i, |s.chunks|;
    var c := s.chunks[i];
    var c' := NextChunk(k, s.used, c, e);
    assert ChunkOk(k, i, c);
    match e {
      case Fail(_) => DropWorker(s.chunks, s.used, i, c.phase.w, c');
      case Release(_) => DropWorker(s.chunks, s.used, i, c.phase.w, c');
      case Scan(_) =>
        var r := FirstFree(k, 0, s.used, c.attempted);
        if r.Some? { TakeWorker(s.chunks, s.used, i, r.value, c'); } else { SameOwner(s.chunks, s.used, i, c'); }
      case _ => SameOwner(s.chunks, s.used, i, c');
    }
  }

  // ---- the result channel

  /** A chunk that has posted tries nothing more. */
  lemma PostedChunkStays<R>(k: nat, used: set<Worker>, c: Chunk, e: Event<R>)
    requires Ready(c, e) && HasPosted(c)
    ensures var c' := NextChunk(k, used, c, e); HasPosted(c') && c'.tried == c.tried && c'.attempted == c.attempted
  {
  }

  lemma StepIsSameFor<R>(s: State<R>, e: Event<R>)
    requires Enabled(s, e) && !e.Collect?
    ensures SameFor(s, Next(s, e), e.i)
  {
    CountsStay(s, e, e.i);
    if HasPosted(s.chunks[e.i]) { PostedChunkStays(|s.chunks|, s.used, s.chunks[e.i], e); }
  }

  lemma StepKeepsPosts<R>(s: State<R>, e: Event<R>)
    requires Inv(s) && Enabled(s, e)
    ensures PostsOk(Next(s, e))
  {
    if e.Collect? { return; }
    var s', i := Next(s, e), e.i;
    var c, added := s.chunks[i], NextPosts(|s.chunks|, s.used, s.chunks[i], e);
    assert ChunkOk(|s.chunks|, i, c);
    PostsWhenItShould(|s.chunks|, s.used, c, e, i);
    StepIsSameFor(s, e);
    if added == [] {
      PostsUnchanged(s, s', i);
    } else {
      NewPostOk(s, e);
      PostAdded(s, s', i, added[0]);
    }
  }

  lemma PostsWhenItShould<R>(k: nat, used: set<Worker>, c: Chunk, e: Event<R>, i: nat)
    requires ChunkOk(k, i, c) && Ready(c, e)
    ensures |NextPosts(k, used, c, e)| <= 1
    ensures HasPosted(NextChunk(k, used, c, e)) <==> HasPosted(c) || NextPosts(k, used, c, e) != []
  {
  }

  ghost predicate SameFor<R>(s: State<R>, s': State<R>, i: nat) {
    && i < |s.chunks| == |s'.chunks|
    && s'.chunks == s.chunks[i := s'.chunks[i]]
    && s'.chunks[i].count == s.chunks[i].count
    && (HasPosted(s.chunks[i]) ==> HasPosted(s'.chunks[i]))
    && (HasPosted(s.chunks[i]) ==> s'.chunks[i].tried == s.chunks[i].tried)
    && (HasPosted(s.chunks[i]) ==> s'.chunks[i].attempted == s.chunks[i].attempted)
  }

  lemma PostsUnchanged<R>(s: State<R>, s': State<R>, i: nat)
    requires PostsOk(s) && SameFor(s, s', i) && s'.posts == s.posts
    requires HasPosted(s'.chunks[i]) ==> HasPosted(s.chunks[i])
    ensures PostsOk(s')
  {
    forall n | 0 <= n < |s'.posts| ensures PostOk(s', s'.posts[n]) {
      assert PostOk(s, s.posts[n]);
    }
  }

  lemma OldPostsOk<R>(s: State<R>, s': State<R>, i: nat, p: Post<R>)
    requires PostsOk(s) && SameFor(s, s', i) && s'.posts == s.posts + [p]
    requires PostOk(s', p)
    ensures forall n :: 0 <= n < |s'.posts| ==> PostOk(s', s'.posts[n])
  {
    forall n | 0 <= n < |s'.posts| ensures PostOk(s', s'.posts[n]) {
      if n < |s.posts| { assert PostOk(s, s.posts[n]); }
    }
  }

  lemma PosterIsFound<R>(s: State<R>, s': State<R>, i: nat, p: Post<R>, j: nat)
    requires PostsOk(s) && SameFor(s, s', i) && s'.posts == s.posts + [p] && p.chunk == i
    requires j < |s'.chunks| && HasPosted(s'.chunks[j])
    ensures exists n :: 0 <= n < |s'.posts| && s'.posts[n].chunk == j
  {
    if j == i {
      assert s'.posts[|s.posts|].chunk == i;
    } else {
      var n :| 0 <= n < |s.posts| && s.posts[n].chunk == j;
      assert s'.posts[n].chunk == j;
    }
  }

  lemma PostAdded<R>(s: State<R>, s': State<R>, i: nat, p: Post<R>)
    requires PostsOk(s) && SameFor(s, s', i) && s'.posts == s.posts + [p]
    requires !HasPosted(s.chunks[i]) && p.chunk == i && PostOk(s', p)
    ensures PostsOk(s')
  {
    OldPostsOk(s, s', i, p);
    forall n | 0 <= n < |s.posts| ensures s.posts[n].chunk != i {
      assert PostOk(s, s.posts[n]);
    }
    forall j | 0 <= j < |s'.chunks| && HasPosted(s'.chunks[j])
      ensures exists n :: 0 <= n < |s'.posts| && s'.posts[n].chunk == j
    {
      PosterIsFound(s, s', i, p, j);
    }
  }

  lemma NewPostOk<R>(s: State<R>, e: Event<R>)
    requires Inv(s) && Enabled(s, e) && !e.Collect?
    requires NextPosts(|s.chunks|, s.used, s.chunks[e.i], e) != []
    ensures var post := NextPosts(|s.chunks|, s.used, s.chunks[e.i], e)[0];
            post.chunk == e.i && PostOk(Next(s, e), post)
    ensures !HasPosted(s.chunks[e.i])
  {
    var k, c := |s.chunks|, s.chunks[e.i];
    assert ChunkOk(k, e.i, c);
    if e.Decide? {
      assert forall w :: w in Elements(c.tried) ==> w in Pool(k);
      SubsetSize(Elements(c.tried), Pool(k));
    }
  }

  // ---- wake-ups

  lemma StepKeepsSignals<R>(s: State<R>, e: Event<R>)
    requires Inv(s) && Enabled(s, e) && NoEmptyChunk(s)
    ensures SomeoneWillSignal(Next(s, e))
  {
    if e.Collect? { return; }
    var s' := Next(s, e);
    var i, k := e.i, |s.chunks|;
    var c, c' := s.chunks[i], s'.chunks[i];
    assert ChunkOk(k, i, c);
    if e.Scan? && c'.phase.Waiting? {
      // every worker this chunk may still try is held by a goroutine that will release it
      var w := UntriedWorker(k, c.attempted);
      assert !Free(s.used, c.attempted, w);
      assert Owned(s.chunks, w);
      var j :| 0 <= j < k && Owns(j, s.chunks[j], w);
      assert Active(s'.chunks[j]);
    } else if j :| 0 <= j < k && j != i && Active(s.chunks[j]) {
      assert Active(s'.chunks[j]);
    } else if Active(c') {
      assert Active(s'.chunks[i]);
    } else if exists j :: 0 <= j < k && s'.chunks[j].phase.Waiting? {
      var j :| 0 <= j < k && s'.chunks[j].phase.Waiting?;
      assert s.chunks[j].phase.Waiting?;
    }
  }

  lemma StepKeepsInv<R>(s: State<R>, e: Event<R>)
    requires Inv(s) && Enabled(s, e)
    ensures Inv(Next(s, e))
  {
    var s' := Next(s, e);
    if !e.Collect? {
      StepKeepsChunk(|s.chunks|, s.used, e.i, s.chunks[e.i], e);
      assert s'.chunks[e.i].count == s.chunks[e.i].count;
      if NoEmptyChunk(s') {
        forall i | 0 <= i < |s.chunks| ensures 0 < s.chunks[i].count { assert s'.chunks[i].count == s.chunks[i].count; }
      }
    }
    StepKeepsExclusive(s, e);
    StepKeepsPosts(s, e);
    if NoEmptyChunk(s') { StepKeepsSignals(s, e); }
  }

  lemma {:induction false} RunKeepsInv<R>(s: State<R>, es: seq<Event<R>>)
    requires Inv(s) && Valid(s, es)
    ensures Inv(After(s, es)) && |After(s, es).chunks| == |s.chunks|
    ensures forall i :: 0 <= i < |s.chunks| ==> After(s, es).chunks[i].count == s.chunks[i].count
    decreases |es|
  {
    if es != [] {
      StepKeepsInv(s, es[0]);
      RunKeepsInv(Next(s, es[0]), es[1..]);
    }
  }

  // ---------------------------------------------------------------- what holds in every run

  /** No worker is held by two chunks, and no chunk tries a worker twice. */
  ghost predicate HoldersSafe<R>(s: State<R>) {
    && (forall i, j, w: Worker :: 0 <= i < j < |s.chunks| && Holds(s.chunks[i], w) ==> !Holds(s.chunks[j], w))
    && (forall i :: 0 <= i < |s.chunks| ==> NoDuplicates(s.chunks[i].tried))
  }

  /** A chunk posts at most one result, so a result channel with one slot per chunk never
      blocks; acquire never returns its error; and a chunk reports failure only after every
      worker of the pool has failed it. */
  ghost predicate ResultsSafe<R>(s: State<R>) {
    && |s.posts| <= |s.chunks|
    && (forall m, n :: 0 <= m < n < |s.posts| ==> s.posts[m].chunk != s.posts[n].chunk)
    && (forall n :: 0 <= n < |s.posts| ==> ResultSafe(s, s.posts[n]))
  }

  ghost predicate ResultSafe<R>(s: State<R>, p: Post<R>) {
    && p.chunk < |s.chunks|
    && !p.AcquireError?
    && (p.Failed? ==> s.chunks[p.chunk].attempted == Elements(s.chunks[p.chunk].tried) == Pool(|s.chunks|))
    && (p.Reply? ==> |s.chunks[p.chunk].attempted| < |s.chunks|)
    && (p.Empty? <==> s.chunks[p.chunk].count <= 0)
  }

  /** Safety, for every failure schedule and every interleaving. */
  lemma {:induction false} SafeInEveryRun<R>(counts: seq<int>, es: seq<Event<R>>)
    requires Valid(Init(counts), es)
    ensures var s := After(Init(counts), es);
            |s.chunks| == |counts| && HoldersSafe(s) && ResultsSafe(s)
  {
    InitInv<R>(counts);
    RunKeepsInv(Init(counts), es);
    InvHoldersSafe(After(Init(counts), es));
    InvResultsSafe(After(Init(counts), es));
  }

  lemma InvHoldersSafe<R>(s: State<R>)
    requires Inv(s)
    ensures HoldersSafe(s)
  {
    forall i, j, w: Worker | 0 <= i < j < |s.chunks| && Holds(s.chunks[i], w) ensures !Holds(s.chunks[j], w) {
      assert Owns(i, s.chunks[i], w);
      assert Holds(s.chunks[j], w) ==> Owns(j, s.chunks[j], w);
    }
    forall i | 0 <= i < |s.chunks| ensures NoDuplicates(s.chunks[i].tried) {
      assert ChunkOk(|s.chunks|, i, s.chunks[i]);
    }
  }

  lemma InvResultsSafe<R>(s: State<R>)
    requires Inv(s)
    ensures ResultsSafe(s)
  {
    forall n | 0 <= n < |s.posts| ensures ResultSafe(s, s.posts[n]) {
      assert PostOk(s, s.posts[n]);
    }
    DistinctBelow(PostedChunks(s.posts), |s.chunks|);
  }

  function PostedChunks<R>(posts: seq<Post<R>>): (ids: seq<nat>)
    ensures |ids| == |posts|
    ensures forall n :: 0 <= n < |posts| ==> ids[n] == posts[n].chunk
  {
    seq(|posts|, n requires 0 <= n < |posts| => posts[n].chunk)
  }

  lemma DistinctBelow(ids: seq<nat>, k: nat)
    requires NoDuplicates(ids) && forall n :: 0 <= n < |ids| ==> ids[n] < k
    ensures |ids| <= k
  {
    SizeOfElements(ids);
    SubsetSize(Elements(ids), Pool(k));
  }

  /** How often a request of chunk i failed. */
  function Failures<R>(es: seq<Event<R>>, i: nat): nat {
    if es == [] then 0 else (if es[0].Fail? && es[0].i == i then 1 else 0) + Failures(es[1..], i)
  }

  lemma FailureIsCounted<R>(s: State<R>, e: Event<R>, i: nat)
    requires Inv(s) && Enabled(s, e) && i < |s.chunks|
    ensures |Next(s, e).chunks[i].attempted| == |s.chunks[i].attempted| + if e.Fail? && e.i == i then 1 else 0
  {
    if e.Fail? && e.i == i { NewAttempt(|s.chunks|, i, s.chunks[i]); }
  }

  /** The workers that a chunk excludes are as many as its requests have failed. */
  lemma {:induction false} AttemptedCountsFailures<R>(s: State<R>, es: seq<Event<R>>, i: nat)
    requires Inv(s) && Valid(s, es) && i < |s.chunks|
    ensures i < |After(s, es).chunks|
    ensures |After(s, es).chunks[i].attempted| == |s.chunks[i].attempted| + Failures(es, i)
    decreases |es|
  {
    if es != [] {
      FailureIsCounted(s, es[0], i);
      StepKeepsInv(s, es[0]);
      AttemptedCountsFailures(Next(s, es[0]), es[1..], i);
    }
  }

  /** The collector goes on only after replies. */
  predicate StopsAtFailure<R>(s: State<R>) {
    s.taken <= |s.posts| && forall n :: 0 <= n < s.taken - 1 ==> s.posts[n].Reply?
  }

  lemma {:induction false} CollectorStopsAtFailure<R>(s: State<R>, es: seq<Event<R>>)
    requires StopsAtFailure(s) && Valid(s, es)
    ensures StopsAtFailure(After(s, es))
    decreases |es|
  {
    if es != [] {
      CollectorStopsAtFailure(Next(s, es[0]), es[1..]);
    }
  }

  // ---------------------------------------------------------------- progress

  predicate Unfinished<R>(s: State<R>) {
    exists i :: 0 <= i < |s.chunks| && !s.chunks[i].phase.Finished?
  }

  predicate GoroutineStep<R>(s: State<R>, e: Event<R>) {
    !e.Collect? && Enabled(s, e)
  }

  function OwnEvent<R>(i: nat, c: Chunk): Event<R> {
    match c.phase
    case Running(_) => if c.count <= 0 then PostEmpty(i) else Fail(i)
    case Answered(_) => Release(i)
    case Releasing(_) => Signal(i)
    case Deciding => Decide(i)
    case Checking => Scan(i)
    case _ => Wake(i)
  }

  /** The retry pool does not deadlock although wake-ups can be lost: while a chunk is
      unfinished, some goroutine can move. */
  lemma {:induction false} NoDeadlock<R>(counts: seq<int>, es: seq<Event<R>>)
    requires Valid(Init(counts), es) && forall i :: 0 <= i < |counts| ==> 0 < counts[i]
    requires Unfinished(After(Init(counts), es))
    ensures exists e :: GoroutineStep(After(Init(counts), es), e)
  {
    InitInv<R>(counts);
    RunKeepsInv(Init(counts), es);
    SomeoneCanMove(After(Init(counts), es));
  }

  lemma SomeoneCanMove<R>(s: State<R>)
    requires Inv(s) && NoEmptyChunk(s) && Unfinished(s)
    ensures exists e :: GoroutineStep(s, e)
  {
    var i :| 0 <= i < |s.chunks| && !s.chunks[i].phase.Finished?;
    if s.chunks[i].phase.Waiting? && !s.token {
      var j :| 0 <= j < |s.chunks| && Active(s.chunks[j]);
      OwnEventEnabled(s, j);
    } else {
      OwnEventEnabled(s, i);
    }
  }

  lemma OwnEventEnabled<R>(s: State<R>, i: nat)
    requires i < |s.chunks| && !s.chunks[i].phase.Finished? && (s.chunks[i].phase.Waiting? ==> s.token)
    ensures GoroutineStep(s, OwnEvent(i, s.chunks[i]))
  {
  }

  ghost predicate Stuck<R(!new)>(s: State<R>) {
    forall e :: !Enabled(s, e)
  }

  /** A run that cannot be continued has delivered: every goroutine has returned, every chunk
      has posted, and the collector has received them all or stopped at the first failure. */
  lemma {:induction false} MaximalRunDelivers<R(!new)>(counts: seq<int>, es: seq<Event<R>>)
    requires Valid(Init(counts), es) && forall i :: 0 <= i < |counts| ==> 0 < counts[i]
    requires Stuck(After(Init(counts), es))
    ensures var s := After(Init(counts), es);
            && !Unfinished(s) && |s.posts| == |counts| && s.taken <= |s.posts|
            && (s.taken == |counts| || (0 < s.taken && !s.posts[s.taken - 1].Reply?))
  {
    InitInv<R>(counts);
    RunKeepsInv(Init(counts), es);
    StuckStateDelivers(After(Init(counts), es));
  }

  lemma StuckStateDelivers<R(!new)>(s: State<R>)
    requires Inv(s) && NoEmptyChunk(s) && Stuck(s)
    ensures !Unfinished(s) && |s.posts| == |s.chunks| && s.taken <= |s.posts|
    ensures s.taken == |s.chunks| || (0 < s.taken && !s.posts[s.taken - 1].Reply?)
  {
    if Unfinished(s) {
      SomeoneCanMove(s);
    }
    assert !Enabled(s, Collect);
    AllPosted(s);
  }

  lemma AllPosted<R>(s: State<R>)
    requires Inv(s) && !Unfinished(s)
    ensures |s.posts| == |s.chunks|
  {
    InvResultsSafe(s);
    var ids := PostedChunks(s.posts);
    forall i | i in Pool(|s.chunks|) ensures i in Elements(ids) {
      assert HasPosted(s.chunks[i]);
      var n :| 0 <= n < |s.posts| && s.posts[n].chunk == i;
      assert ids[n] == i;
    }
    SizeOfElements(ids);
    SubsetSize(Pool(|s.chunks|), Elements(ids));
  }

  // ---------------------------------------------------------------- how long a run can be

  /** What one chunk can still do; an attempt is worth six steps, of which the last two pay
      for the waiter that its release may wake. */
  function Fuel(k: nat, c: Chunk): int {
    6 * (k - |c.attempted|) + match c.phase
    case Running(_) => 0
    case Answered(_) => -2
    case Releasing(ok) => if ok then -3 else 5
    case Deciding => 2
    case Checking => 1
    case Waiting => 0
    case Finished => -6 * (k - |c.attempted|)
  }

  function FuelSum(k: nat, cs: seq<Chunk>): int {
    if cs == [] then 0 else Fuel(k, cs[0]) + FuelSum(k, cs[1..])
  }

  function Measure<R>(s: State<R>): int {
    FuelSum(|s.chunks|, s.chunks) + (if s.token then 2 else 0) + |s.chunks| - s.taken
  }

  lemma {:induction false} FuelSumUpdate(k: nat, cs: seq<Chunk>, i: nat, c': Chunk)
    requires i < |cs|
    ensures FuelSum(k, cs[i := c']) == FuelSum(k, cs) - Fuel(k, cs[i]) + Fuel(k, c')
  {
    if i == 0 {
      assert cs[0 := c'][1..] == cs[1..];
    } else {
      FuelSumUpdate(k, cs[1..], i - 1, c');
      assert cs[i := c'][1..] == cs[1..][i - 1 := c'];
    }
  }

  lemma NewAttempt(k: nat, i: nat, c: Chunk)
    requires ChunkOk(k, i, c) && c.phase.Running?
    ensures c.phase.w !in c.attempted
  {
    var n := |c.tried| - 1;
    assert forall m :: 0 <= m < n ==> c.tried[m] != c.tried[n];
  }

  lemma FailBurnsFuel(k: nat, i: nat, c: Chunk)
    requires ChunkOk(k, i, c) && c.phase.Running?
    ensures Fuel(k, c.(phase := Releasing(false), attempted := c.attempted + {c.phase.w})) < Fuel(k, c)
  {
    NewAttempt(k, i, c);
  }

  lemma ScanBurnsFuel<R>(k: nat, used: set<Worker>, i: nat, c: Chunk, e: Event<R>)
    requires ChunkOk(k, i, c) && c.phase.Checking? && e.Scan?
    ensures Fuel(k, NextChunk(k, used, c, e)) < Fuel(k, c)
  {
  }

  lemma ChunkStepBurnsFuel<R>(k: nat, used: set<Worker>, i: nat, c: Chunk, e: Event<R>)
    requires ChunkOk(k, i, c) && Ready(c, e)
    ensures Fuel(k, NextChunk(k, used, c, e)) + (if e.Signal? then 2 else if e.Wake? then -2 else 0) < Fuel(k, c)
  {
    if e.Fail? {
      FailBurnsFuel(k, i, c);
    } else if e.Scan? {
      ScanBurnsFuel(k, used, i, c, e);
    }
  }

  lemma StepBurnsFuel<R>(s: State<R>, e: Event<R>)
    requires Inv(s) && Enabled(s, e)
    ensures Measure(Next(s, e)) < Measure(s)
  {
    if !e.Collect? {
      var k, c := |s.chunks|, s.chunks[e.i];
      ChunkStepBurnsFuel(k, s.used, e.i, c, e);
      FuelSumUpdate(k, s.chunks, e.i, NextChunk(k, s.used, c, e));
    }
  }

  lemma {:induction false} FuelSumNonNegative(k: nat, cs: seq<Chunk>, i: nat)
    requires forall n :: 0 <= n < |cs| ==> ChunkOk(k, i + n, cs[n])
    ensures 0 <= FuelSum(k, cs)
  {
    if cs != [] {
      assert ChunkOk(k, i + 0, cs[0]);
      assert forall n :: 0 <= n < |cs[1..]| ==> cs[1..][n] == cs[n + 1];
      FuelSumNonNegative(k, cs[1..], i + 1);
    }
  }

  lemma {:induction false} RunBurnsFuel<R>(s: State<R>, es: seq<Event<R>>)
    requires Inv(s) && Valid(s, es)
    ensures |es| <= Measure(s)
    decreases |es|
  {
    if es == [] {
      FuelSumNonNegative(|s.chunks|, s.chunks, 0);
      InvResultsSafe(s);
    } else {
      StepBurnsFuel(s, es[0]);
      StepKeepsInv(s, es[0]);
      RunBurnsFuel(Next(s, es[0]), es[1..]);
    }
  }

  lemma {:induction false} FuelSumInit(k: nat, cs: seq<Chunk>)
    requires forall n :: 0 <= n < |cs| ==> cs[n].phase.Running? && cs[n].attempted == {}
    ensures FuelSum(k, cs) == 6 * k * |cs|
  {
    if cs != [] {
      FuelSumInit(k, cs[1..]);
      assert 6 * k * |cs| == 6 * k * |cs[1..]| + 6 * k;
    }
  }

  /** Every run, wake-ups and collector included, takes at most 6k^2 + k steps. */
  lemma {:induction false} RunsAreShort<R>(counts: seq<int>, es: seq<Event<R>>)
    requires Valid(Init(counts), es)
    ensures |es| <= 6 * |counts| * |counts| + |counts|
  {
    InitInv<R>(counts);
    RunBurnsFuel(Init(counts), es);
    FuelSumInit(|counts|, InitChunks(counts));
  }

  // ---------------------------------------------------------------- an empty chunk strands the others

  /** Chunk m is empty, chunk f is not, has not answered, and has never held worker m. */
  ghost predicate Starving<R>(s: State<R>, f: nat, m: nat) {
    && Inv(s) && f < |s.chunks| && m < |s.chunks|
    && s.chunks[m].count <= 0 < s.chunks[f].count
    && !HasPosted(s.chunks[f]) && m !in s.chunks[f].tried
  }

  lemma StarvingChunk<R>(k: nat, used: set<Worker>, f: nat, c: Chunk, m: Worker, e: Event<R>)
    requires ChunkOk(k, f, c) && Ready(c, e) && !e.Succeed? && 0 < c.count
    requires m < k && m in used && m !in c.tried && !HasPosted(c)
    ensures var c' := NextChunk(k, used, c, e); !HasPosted(c') && m !in c'.tried
  {
    if e.Decide? || e.Scan? {
      assert forall w :: w in c.attempted ==> w in Pool(k);
      assert m in Pool(k) && m !in c.attempted;
      SubsetSize(c.attempted, Pool(k));
    }
  }

  lemma StarvingOwnStep<R>(s: State<R>, f: nat, m: nat, e: Event<R>)
    requires Starving(s, f, m) && Enabled(s, e) && !e.Collect? && e.i == f && !e.Succeed?
    ensures var c' := Next(s, e).chunks[f]; c'.count == s.chunks[f].count && !HasPosted(c') && m !in c'.tried
  {
    var k := |s.chunks|;
    assert ChunkOk(k, m, s.chunks[m]) && ChunkOk(k, f, s.chunks[f]);
    assert Owns(m, s.chunks[m], m);
    StarvingChunk(k, s.used, f, s.chunks[f], m, e);
  }

  lemma CountsStay<R>(s: State<R>, e: Event<R>, i: nat)
    requires Enabled(s, e) && i < |s.chunks|
    ensures |Next(s, e).chunks| == |s.chunks| && Next(s, e).chunks[i].count == s.chunks[i].count
  {
  }

  /** The goroutine of an empty chunk never gives its worker back, so no other chunk can try
      that worker, and a chunk that fails elsewhere never runs out of workers to wait for. */
  lemma StarvingGoesOn<R>(s: State<R>, f: nat, m: nat, e: Event<R>)
    requires Starving(s, f, m) && Enabled(s, e) && SparesChunk(e, f)
    ensures Starving(Next(s, e), f, m)
  {
    StepKeepsInv(s, e);
    CountsStay(s, e, m);
    CountsStay(s, e, f);
    if !e.Collect? && e.i == f { StarvingOwnStep(s, f, m, e); }
  }

  predicate SparesChunk<R>(e: Event<R>, f: nat) {
    !(e.Succeed? && e.i == f)
  }

  lemma {:induction false} Starve<R>(s: State<R>, f: nat, m: nat) returns (es: seq<Event<R>>)
    requires Starving(s, f, m)
    ensures Valid(s, es) && Starving(After(s, es), f, m)
    ensures forall e :: GoroutineStep(After(s, es), e) ==> !SparesChunk(e, f)
    decreases Measure(s)
  {
    RunBurnsFuel(s, []);
    if e :| GoroutineStep(s, e) && SparesChunk(e, f) {
      StepBurnsFuel(s, e);
      StarvingGoesOn(s, f, m, e);
      RunBurnsFuel(Next(s, e), []);
      var rest := Starve(Next(s, e), f, m);
      es := [e] + rest;
      assert es[1..] == rest;
    } else {
      es := [];
    }
  }

  /** With one empty and one non-empty chunk there is a schedule after which the non-empty
      chunk waits for ever: no goroutine can take a step. */
  lemma {:induction false} EmptyChunkStrandsOthers<R>(counts: seq<int>, f: nat, m: nat) returns (es: seq<Event<R>>)
    requires f < |counts| && m < |counts| && counts[m] <= 0 < counts[f]
    ensures Valid(Init(counts), es)
    ensures var s := After<R>(Init(counts), es);
            f < |s.chunks| && s.chunks[f].phase.Waiting? && forall e :: !GoroutineStep(s, e)
  {
    InitInv<R>(counts);
    assert InitChunks(counts)[f].tried == [f];
    es := Starve(Init<R>(counts), f, m);
    StrandedState(After(Init<R>(counts), es), f, m);
  }

  lemma StrandedState<R>(s: State<R>, f: nat, m: nat)
    requires Starving(s, f, m)
    requires forall e :: GoroutineStep(s, e) ==> !SparesChunk(e, f)
    ensures s.chunks[f].phase.Waiting? && forall e :: !GoroutineStep(s, e)
  {
    var own := OwnEvent<R>(f, s.chunks[f]);
    assert SparesChunk(own, f);
    assert !GoroutineStep(s, own);
    forall e: Event<R> ensures !GoroutineStep(s, e) {
      assert GoroutineStep(s, e) ==> !SparesChunk(e, f);
    }
  }

  ghost predicate Live<R(!new)>(s: State<R>) {
    Unfinished(s) ==> exists e :: GoroutineStep(s, e)
  }

  /** Some chunks are empty and some are not. */
  predicate Mixed(counts: seq<int>) {
    exists f, m :: 0 <= f < |counts| && 0 <= m < |counts| && counts[m] <= 0 < counts[f]
  }

  lemma UnmixedIsLive<R(!new)>(counts: seq<int>, es: seq<Event<R>>)
    requires !Mixed(counts) && Valid(Init(counts), es)
    ensures Live(After(Init(counts), es))
  {
    var s := After(Init(counts), es);
    InitInv<R>(counts);
    RunKeepsInv(Init(counts), es);
    if Unfinished(s) {
      var i :| 0 <= i < |s.chunks| && !s.chunks[i].phase.Finished?;
      if 0 < counts[i] {
        NoDeadlock(counts, es);
      } else {
        assert ChunkOk(|s.chunks|, i, s.chunks[i]);
        OwnEventEnabled(s, i);
      }
    }
  }

  /** The exact condition: the engine makes progress in every run if and only if the chunks are
      all empty or all not. */
  lemma {:induction false} ProgressIff<R(!new)>(counts: seq<int>)
    ensures (forall es: seq<Event<R>> :: Valid(Init(counts), es) ==> Live(After(Init(counts), es))) <==> !Mixed(counts)
  {
    if Mixed(counts) {
      var f, m :| 0 <= f < |counts| && 0 <= m < |counts| && counts[m] <= 0 < counts[f];
      var es := EmptyChunkStrandsOthers<R>(counts, f, m);
      var s := After(Init(counts), es);
      assert Unfinished(s) && !Live(s);
    } else {
      forall es: seq<Event<R>> | Valid(Init(counts), es) ensures Live(After(Init(counts), es)) {
        UnmixedIsLive(counts, es);
      }
    }
  }
}
