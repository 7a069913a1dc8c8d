/**
  When what a partitioned job gathers depends on the order in which replies arrive
  (modules/llm/ext/openai/partition.go).  Append does not compare a reply with the chunk that
  was asked for, so a reply that is too long runs into slots of other chunks.
*/
module ArrivalOrder {
  import opened Wrappers
  import opened Sequences
  import A = Apportion
  import P = RetryPool
  import E = EmbeddingJob
  import G = PartitionEngine

  /** Every task has a reply and starts within the request; nothing else is asked of replies. */
  predicate Answered<O>(tasks: seq<A.Task>, replies: seq<E.Reply<O>>, size: nat) {
    |replies| == |tasks| && forall c :: 0 <= c < |tasks| ==> 0 <= tasks[c].start <= size
  }

  predicate Within(order: seq<nat>, k: nat) {
    forall n :: 0 <= n < |order| ==> order[n] < k
  }

  /** One of the orders in which k results can arrive. */
  ghost predicate IsOrder(order: seq<nat>, k: nat) {
    |order| == k && Within(order, k) && NoDuplicates(order)
  }

  function PostsOf<O>(replies: seq<E.Reply<O>>, order: seq<nat>): (posts: seq<G.Post<O>>)
    requires Within(order, |replies|)
    ensures |posts| == |order|
    ensures forall n :: 0 <= n < |order| ==> posts[n] == P.Reply(order[n], 0, replies[order[n]])
  {
    seq(|order|, n requires 0 <= n < |order| => P.Reply(order[n], 0, replies[order[n]]))
  }

  /** The slots after the replies have arrived in that order. */
  function Slots<O>(tasks: seq<A.Task>, replies: seq<E.Reply<O>>, g: E.Gathered<O>, order: seq<nat>): seq<Option<O>>
    requires Answered(tasks, replies, |g.final|) && Within(order, |tasks|)
  {
    G.Collect(tasks, PostsOf(replies, order), g).gathered.final
  }

  predicate WritesSlot<O>(tasks: seq<A.Task>, replies: seq<E.Reply<O>>, c: nat, j: nat)
    requires c < |tasks| == |replies|
  {
    tasks[c].start <= j < tasks[c].start + |replies[c].data|
  }

  function Written<O>(tasks: seq<A.Task>, replies: seq<E.Reply<O>>, c: nat, j: nat): O
    requires c < |tasks| == |replies| && WritesSlot(tasks, replies, c, j)
  {
    replies[c].data[j - tasks[c].start]
  }

  /** Where two replies write one slot they write the same. */
  ghost predicate Agree<O>(tasks: seq<A.Task>, replies: seq<E.Reply<O>>, size: nat)
    requires |tasks| == |replies|
  {
    forall c: nat, d: nat, j: nat ::
      c < |tasks| && d < |tasks| && j < size && WritesSlot(tasks, replies, c, j) && WritesSlot(tasks, replies, d, j) ==>
      Written(tasks, replies, c, j) == Written(tasks, replies, d, j)
  }

  // ---------------------------------------------------------------- the last writer wins

  function LastWriter<O>(tasks: seq<A.Task>, replies: seq<E.Reply<O>>, order: seq<nat>, j: nat): (r: Option<nat>)
    requires |tasks| == |replies| && Within(order, |tasks|)
    ensures r.Some? ==> r.value in order && r.value < |tasks| && WritesSlot(tasks, replies, r.value, j)
    ensures r.None? ==> forall n :: 0 <= n < |order| ==> !WritesSlot(tasks, replies, order[n], j)
  {
    if order == [] then None
    else
      var later := LastWriter(tasks, replies, order[1..], j);
      if later.Some? then later
      else if WritesSlot(tasks, replies, order[0], j) then Some(order[0])
      else None
  }

  lemma {:induction false} SlotOfLastWriter<O>(
      tasks: seq<A.Task>, replies: seq<E.Reply<O>>, g: E.Gathered<O>, order: seq<nat>, j: nat)
    requires Answered(tasks, replies, |g.final|) && Within(order, |tasks|) && j < |g.final|
    ensures var w := LastWriter(tasks, replies, order, j);
      && |Slots(tasks, replies, g, order)| == |g.final|
      && Slots(tasks, replies, g, order)[j] == if w.Some? then Some(Written(tasks, replies, w.value, j)) else g.final[j]
    decreases |order|
  {
    if order != [] {
      var c := order[0];
      assert PostsOf(replies, order)[1..] == PostsOf(replies, order[1..]);
      SlotOfLastWriter(tasks, replies, E.Appended(g, replies[c], tasks[c].start), order[1..], j);
    }
  }

  lemma {:induction false} LastWriterSnoc<O>(
      tasks: seq<A.Task>, replies: seq<E.Reply<O>>, order: seq<nat>, c: nat, j: nat)
    requires |tasks| == |replies| && Within(order, |tasks|) && c < |tasks| && WritesSlot(tasks, replies, c, j)
    ensures LastWriter(tasks, replies, order + [c], j) == Some(c)
  {
    if order == [] {
      assert (order + [c])[1..] == [];
    } else {
      assert (order + [c])[1..] == order[1..] + [c];
      LastWriterSnoc(tasks, replies, order[1..], c, j);
    }
  }

  // ---------------------------------------------------------------- orders

  lemma {:induction false} OrderHasAll(order: seq<nat>, k: nat, c: nat)
    requires IsOrder(order, k) && c < k
    ensures exists n :: 0 <= n < |order| && order[n] == c
  {
    SizeOfElements(order);
    assert Elements(order) <= P.Pool(k);
    P.SubsetSize(Elements(order), P.Pool(k));
    assert c in Elements(order);
  }

  /** The numbers below n but for c and d. */
  function Others(n: nat, c: nat, d: nat): seq<nat> {
    if n == 0 then [] else Others(n - 1, c, d) + if n - 1 == c || n - 1 == d then [] else [n - 1]
  }

  lemma {:induction false} OthersFacts(n: nat, c: nat, d: nat)
    requires c != d
    ensures NoDuplicates(Others(n, c, d))
    ensures forall x :: x in Others(n, c, d) ==> x < n && x != c && x != d
    ensures |Others(n, c, d)| == n - (if c < n then 1 else 0) - (if d < n then 1 else 0)
  {
    if n > 0 {
      OthersFacts(n - 1, c, d);
      var front := Others(n - 1, c, d);
      assert forall i :: 0 <= i < |front| ==> front[i] in front;
    }
  }

  lemma {:induction false} EndingWith(k: nat, c: nat, d: nat)
    requires c < k && d < k && c != d
    ensures Within(Others(k, c, d) + [c], k) && IsOrder(Others(k, c, d) + [c] + [d], k)
  {
    OthersFacts(k, c, d);
    var xs := Others(k, c, d);
    assert forall n :: 0 <= n < |xs| ==> xs[n] in xs;
  }

  // ---------------------------------------------------------------- main results

  ghost predicate SameInAnyOrder<O(!new)>(tasks: seq<A.Task>, replies: seq<E.Reply<O>>, size: nat)
    requires Answered(tasks, replies, size)
  {
    forall p, q :: IsOrder(p, |tasks|) && IsOrder(q, |tasks|) ==>
      Slots(tasks, replies, E.Blank(size), p) == Slots(tasks, replies, E.Blank(size), q)
  }

  lemma {:induction false} AgreeingSlots<O>(
      tasks: seq<A.Task>, replies: seq<E.Reply<O>>, size: nat, p: seq<nat>, q: seq<nat>, j: nat)
    requires Answered(tasks, replies, size) && Agree(tasks, replies, size) && j < size
    requires IsOrder(p, |tasks|) && IsOrder(q, |tasks|)
    ensures var g := E.Blank<O>(size);
      && |Slots(tasks, replies, g, p)| == |Slots(tasks, replies, g, q)| == size
      && Slots(tasks, replies, g, p)[j] == Slots(tasks, replies, g, q)[j]
  {
    SlotOfLastWriter(tasks, replies, E.Blank(size), p, j);
    SlotOfLastWriter(tasks, replies, E.Blank(size), q, j);
    var c, d := LastWriter(tasks, replies, p, j), LastWriter(tasks, replies, q, j);
    if c.Some? { OrderHasAll(q, |tasks|, c.value); }
    if d.Some? { OrderHasAll(p, |tasks|, d.value); }
  }

  lemma {:induction false} LastOfOrder<O>(
      tasks: seq<A.Task>, replies: seq<E.Reply<O>>, size: nat, c: nat, d: nat, j: nat)
    requires Answered(tasks, replies, size) && c < |tasks| && d < |tasks| && c != d && j < size
    requires WritesSlot(tasks, replies, d, j)
    ensures var order := Others(|tasks|, c, d) + [c] + [d];
      && IsOrder(order, |tasks|)
      && j < |Slots(tasks, replies, E.Blank(size), order)|
      && Slots(tasks, replies, E.Blank(size), order)[j] == Some(Written(tasks, replies, d, j))
  {
    EndingWith(|tasks|, c, d);
    LastWriterSnoc(tasks, replies, Others(|tasks|, c, d) + [c], d, j);
    SlotOfLastWriter(tasks, replies, E.Blank(size), Others(|tasks|, c, d) + [c] + [d], j);
  }

  /** The exact condition: the slots are the same for all orders of arrival if and only if no two
      replies write different things to one slot. */
  lemma {:induction false} SameInAnyOrderIff<O(!new)>(tasks: seq<A.Task>, replies: seq<E.Reply<O>>, size: nat)
    requires Answered(tasks, replies, size)
    ensures SameInAnyOrder(tasks, replies, size) <==> Agree(tasks, replies, size)
  {
    if Agree(tasks, replies, size) {
      forall p, q | IsOrder(p, |tasks|) && IsOrder(q, |tasks|)
        ensures Slots(tasks, replies, E.Blank(size), p) == Slots(tasks, replies, E.Blank(size), q)
      {
        SlotOfNothing(tasks, replies, size, p);
        SlotOfNothing(tasks, replies, size, q);
        forall j | 0 <= j < size
          ensures Slots(tasks, replies, E.Blank(size), p)[j] == Slots(tasks, replies, E.Blank(size), q)[j]
        {
          AgreeingSlots(tasks, replies, size, p, q, j);
        }
      }
    } else {
      var c: nat, d: nat, j: nat :|
        && c < |tasks| && d < |tasks| && j < size
        && WritesSlot(tasks, replies, c, j) && WritesSlot(tasks, replies, d, j)
        && Written(tasks, replies, c, j) != Written(tasks, replies, d, j);
      LastOfOrder(tasks, replies, size, c, d, j);
      LastOfOrder(tasks, replies, size, d, c, j);
    }
  }

  lemma {:induction false} SlotOfNothing<O>(tasks: seq<A.Task>, replies: seq<E.Reply<O>>, size: nat, order: seq<nat>)
    requires Answered(tasks, replies, size) && Within(order, |tasks|)
    ensures |Slots(tasks, replies, E.Blank(size), order)| == size
  {
    CollectKeepsSize(tasks, PostsOf(replies, order), E.Blank<O>(size));
  }

  lemma {:induction false} CollectKeepsSize<O>(tasks: seq<A.Task>, posts: seq<G.Post<O>>, g: E.Gathered<O>)
    requires G.Addressed(tasks, posts, |g.final|)
    ensures |G.Collect(tasks, posts, g).gathered.final| == |g.final|
    decreases |posts|
  {
    if posts != [] && posts[0].Reply? {
      CollectKeepsSize(tasks, posts[1..], E.Appended(g, posts[0].reply, tasks[posts[0].chunk].start));
    }
  }

  /** Replies that are no longer than their chunks never meet, whatever they contain. */
  lemma {:induction false} ShortRepliesAgree<O>(tasks: seq<A.Task>, replies: seq<E.Reply<O>>, size: nat)
    requires Answered(tasks, replies, size) && A.Tiles(tasks, 0, size)
    requires forall c :: 0 <= c < |tasks| ==> |replies[c].data| <= tasks[c].count
    ensures Agree(tasks, replies, size)
  {
    forall c: nat, d: nat, j: nat
      | c < |tasks| && d < |tasks| && j < size && WritesSlot(tasks, replies, c, j) && WritesSlot(tasks, replies, d, j)
      ensures c == d
    {
      var only := A.TilesCoverOnce(tasks, 0, size, j);
      assert tasks[c].start <= j < tasks[c].start + tasks[c].count;
      assert tasks[d].start <= j < tasks[d].start + tasks[d].count;
    }
  }

  /** A reply of two results to a chunk of one makes the second slot depend on the order. */
  lemma {:induction false} LongReplyDependsOnOrder()
    ensures var tasks := [A.Task(0, 1), A.Task(1, 1)];
      var replies := [E.Reply([1, 2], E.NoUsage(), ""), E.Reply([3], E.NoUsage(), "")];
      A.Tiles(tasks, 0, 2) && Answered(tasks, replies, 2) && !SameInAnyOrder(tasks, replies, 2)
  {
    var tasks := [A.Task(0, 1), A.Task(1, 1)];
    var replies := [E.Reply([1, 2], E.NoUsage(), ""), E.Reply([3], E.NoUsage(), "")];
    assert tasks[1..] == [A.Task(1, 1)] && tasks[1..][1..] == [];
    assert WritesSlot(tasks, replies, 0, 1) && WritesSlot(tasks, replies, 1, 1);
    assert Written(tasks, replies, 0, 1) == 2 && Written(tasks, replies, 1, 1) == 3;
    SameInAnyOrderIff(tasks, replies, 2);
  }

  // ---------------------------------------------------------------- the model name

  function Model<O>(tasks: seq<A.Task>, replies: seq<E.Reply<O>>, size: nat, order: seq<nat>): string
    requires Answered(tasks, replies, size) && Within(order, |tasks|)
  {
    G.Collect(tasks, PostsOf(replies, order), E.Blank<O>(size)).gathered.model
  }

  lemma {:induction false} ModelOfOrder<O>(tasks: seq<A.Task>, replies: seq<E.Reply<O>>, size: nat, order: seq<nat>)
    requires Answered(tasks, replies, size) && Within(order, |tasks|)
    ensures Model(tasks, replies, size, order) == G.FirstModel(PostsOf(replies, order))
  {
    G.ModelIsFirstToArrive(tasks, PostsOf(replies, order), E.Blank<O>(size));
  }

  lemma {:induction false} FirstModelFacts<O>(replies: seq<E.Reply<O>>, order: seq<nat>)
    requires Within(order, |replies|)
    ensures var m := G.FirstModel(PostsOf(replies, order));
      && (m == "" <==> forall n :: 0 <= n < |order| ==> replies[order[n]].model == "")
      && (m != "" ==> exists n :: 0 <= n < |order| && replies[order[n]].model == m)
    decreases |order|
  {
    if order != [] {
      var posts, tail := PostsOf(replies, order), order[1..];
      assert posts[1..] == PostsOf(replies, tail);
      FirstModelFacts(replies, tail);
      assert forall n :: 0 <= n < |tail| ==> tail[n] == order[n + 1];
      if posts[0].reply.model != "" {
        assert replies[order[0]].model == G.FirstModel(posts);
      } else if m: nat :| m < |tail| && replies[tail[m]].model == G.FirstModel(posts) {
        assert replies[order[m + 1]].model == G.FirstModel(posts);
      }
    }
  }

  /** Replies that name a model name the same. */
  ghost predicate ModelsAgree<O>(replies: seq<E.Reply<O>>) {
    forall c, d :: 0 <= c < |replies| && 0 <= d < |replies| && replies[c].model != "" && replies[d].model != "" ==>
      replies[c].model == replies[d].model
  }

  ghost predicate SameModelInAnyOrder<O(!new)>(tasks: seq<A.Task>, replies: seq<E.Reply<O>>, size: nat)
    requires Answered(tasks, replies, size)
  {
    forall p, q :: IsOrder(p, |tasks|) && IsOrder(q, |tasks|) ==>
      Model(tasks, replies, size, p) == Model(tasks, replies, size, q)
  }

  lemma {:induction false} AgreeingModels<O>(
      tasks: seq<A.Task>, replies: seq<E.Reply<O>>, size: nat, p: seq<nat>, q: seq<nat>)
    requires Answered(tasks, replies, size) && ModelsAgree(replies)
    requires IsOrder(p, |tasks|) && IsOrder(q, |tasks|)
    ensures Model(tasks, replies, size, p) == Model(tasks, replies, size, q)
  {
    ModelOfOrder(tasks, replies, size, p);
    ModelOfOrder(tasks, replies, size, q);
    FirstModelFacts(replies, p);
    FirstModelFacts(replies, q);
    var x, y := Model(tasks, replies, size, p), Model(tasks, replies, size, q);
    if x != "" {
      var n :| 0 <= n < |p| && replies[p[n]].model == x;
      OrderHasAll(q, |tasks|, p[n]);
    }
    if y != "" {
      var n :| 0 <= n < |q| && replies[q[n]].model == y;
      OrderHasAll(p, |tasks|, q[n]);
    }
  }

  lemma {:induction false} StartingWith(k: nat, c: nat, d: nat)
    requires c < k && d < k && c != d
    ensures IsOrder([c, d] + Others(k, c, d), k)
  {
    OthersFacts(k, c, d);
    var xs := Others(k, c, d);
    assert forall n :: 0 <= n < |xs| ==> xs[n] in xs;
  }

  lemma {:induction false} FirstOfOrder<O>(
      tasks: seq<A.Task>, replies: seq<E.Reply<O>>, size: nat, c: nat, d: nat)
    requires Answered(tasks, replies, size) && c < |tasks| && d < |tasks| && c != d && replies[c].model != ""
    ensures var order := [c, d] + Others(|tasks|, c, d);
      IsOrder(order, |tasks|) && Model(tasks, replies, size, order) == replies[c].model
  {
    StartingWith(|tasks|, c, d);
    ModelOfOrder(tasks, replies, size, [c, d] + Others(|tasks|, c, d));
  }

  /** The exact condition: the model name is the same for all orders of arrival if and only if
      all replies that name a model name the same. */
  lemma {:induction false} SameModelInAnyOrderIff<O(!new)>(tasks: seq<A.Task>, replies: seq<E.Reply<O>>, size: nat)
    requires Answered(tasks, replies, size)
    ensures SameModelInAnyOrder(tasks, replies, size) <==> ModelsAgree(replies)
  {
    if ModelsAgree(replies) {
      forall p, q | IsOrder(p, |tasks|) && IsOrder(q, |tasks|)
        ensures Model(tasks, replies, size, p) == Model(tasks, replies, size, q)
      {
        AgreeingModels(tasks, replies, size, p, q);
      }
    } else {
      var c: nat, d: nat :|
        && c < |replies| && d < |replies| && replies[c].model != "" && replies[d].model != ""
        && replies[c].model != replies[d].model;
      FirstOfOrder(tasks, replies, size, c, d);
      FirstOfOrder(tasks, replies, size, d, c);
    }
  }

  /** Two workers that serve different models, each faithful to its chunk. */
  lemma {:induction false} TwoModelsDependOnOrder()
    ensures var tasks := [A.Task(0, 1), A.Task(1, 1)];
      var replies := [E.Reply([1], E.NoUsage(), "a"), E.Reply([2], E.NoUsage(), "b")];
      && A.Tiles(tasks, 0, 2) && Answered(tasks, replies, 2)
      && SameInAnyOrder(tasks, replies, 2) && !SameModelInAnyOrder(tasks, replies, 2)
  {
    var tasks := [A.Task(0, 1), A.Task(1, 1)];
    var replies := [E.Reply([1], E.NoUsage(), "a"), E.Reply([2], E.NoUsage(), "b")];
    assert tasks[1..] == [A.Task(1, 1)] && tasks[1..][1..] == [];
    assert replies[0].model != replies[1].model;
    ShortRepliesAgree(tasks, replies, 2);
    SameInAnyOrderIff(tasks, replies, 2);
    SameModelInAnyOrderIff(tasks, replies, 2);
  }
}
