/**
  How HandlePartitionedJob cuts `size` items into one task per worker, in proportion to
  integer weights (sdk/base/worker/partition.go).  Arithmetic is Go's 64-bit arithmetic:
  the sum of the weights and the product `remaining * weight` wrap around, and a
  remaining weight that wraps to zero makes the division panic.
*/
module Apportion {
  import opened GoInts
  import opened Wrappers

  datatype Task = Task(start: int, count: int)

  function Sum(ws: seq<int>): int {
    if ws == [] then 0 else ws[0] + Sum(ws[1..])
  }

  predicate AllPositive(ws: seq<int>) {
    forall i :: 0 <= i < |ws| ==> 0 < ws[i]
  }

  /** The tasks are laid end to end from lo to hi. */
  predicate Tiles(ts: seq<Task>, lo: int, hi: int) {
    if ts == [] then lo == hi
    else ts[0].start == lo && 0 <= ts[0].count && Tiles(ts[1..], lo + ts[0].count, hi)
  }

  // ---------------------------------------------------------------- the split, as a function

  function Clamp(q: int, rem: int): int {
    var p := if q < 1 then 1 else q;
    if p > rem then rem else p
  }

  /** The share of one worker: never less than one item, never more than are left. */
  function Share(rem: int, w: int, remW: int): int
    requires remW != 0
  {
    Clamp(TruncDiv(Wrap(rem * w), remW), rem)
  }

  /** None stands for the run-time panic of a division by zero. */
  function Split(rem: int, ws: seq<int>, remW: int, offset: int): Option<seq<Task>>
    decreases |ws|
  {
    if ws == [] then Some([])
    else if |ws| == 1 then Some([Task(offset, rem)])
    else if remW == 0 then None
    else
      var p := Share(rem, ws[0], remW);
      Prepend([Task(offset, p)], Split(rem - p, ws[1..], Wrap(remW - ws[0]), offset + p))
  }

  function Prepend<T>(xs: seq<T>, o: Option<seq<T>>): Option<seq<T>> {
    match o
    case None => None
    case Some(ys) => Some(xs + ys)
  }

  /** A worker weighs what the job asks for it, else its own batch size, else everything. */
  function Weights(desired: seq<int>, preferred: seq<int>, size: int): (ws: seq<int>)
    requires |desired| == |preferred|
    ensures |ws| == |desired|
    ensures 0 < size ==> AllPositive(ws)
  {
    seq(|desired|, i requires 0 <= i < |desired| =>
      if desired[i] > 0 then desired[i] else if preferred[i] > 0 then preferred[i] else size)
  }

  /** The first loop of the multi-worker branch. */
  method Weigh(size: int, desired: seq<int>, preferred: seq<int>) returns (weights: array<int>, total: int)
    requires |desired| == |preferred|
    ensures weights[..] == Weights(desired, preferred, size)
    ensures forall i :: 0 <= i < |desired| ==>
      && (0 < desired[i] ==> weights[i] == desired[i])
      && (desired[i] <= 0 < preferred[i] ==> weights[i] == preferred[i])
      && (desired[i] <= 0 && preferred[i] <= 0 ==> weights[i] == size)
    ensures total == Wrap(Sum(weights[..]))
  {
    var k := |desired|;
    weights := new int[k];
    total := 0;
    ghost var ws := Weights(desired, preferred, size);
    for i := 0 to k
      invariant weights[..i] == ws[..i]
      invariant total == Wrap(Sum(ws[..i]))
    {
      var n := desired[i];
      if n <= 0 { n := preferred[i]; }
      if n <= 0 { n := size; }
      weights[i] := n;
      WrapAdd(Sum(ws[..i]), n);
      SumSnoc(ws[..i], n);
      assert ws[..i + 1] == ws[..i] + [n];
      total := Wrap(total + n);
    }
    assert ws[..k] == ws && weights[..] == weights[..k];
    assert forall i :: 0 <= i < k ==> weights[i] == weights[..][i];
  }

  method Portion(remaining: int, w: int, remW: int) returns (portion: int)
    requires remW != 0
    ensures portion == Share(remaining, w, remW)
  {
    portion := TruncDiv(Wrap(remaining * w), remW);
    if portion < 1 { portion := 1; }
    if portion > remaining { portion := remaining; }
  }

  /** The second loop: deal the items out, worker by worker. */
  method Deal(size: int, weights: array<int>, total: int) returns (panics: bool, tasks: array<Task>)
    ensures weights[..] == old(weights[..])
    ensures Split(size, weights[..], total, 0) == if panics then None else Some(tasks[..])
  {
    var k := weights.Length;
    ghost var ws := weights[..];
    tasks := new Task[k](_ => Task(0, 0));
    panics := false;
    var remaining, offset, remW := size, 0, total;
    ghost var whole := Split(size, ws, total, 0);
    PrependNothing(whole);
    assert tasks[..0] == [] && ws[0..] == ws;
    for i := 0 to k
      invariant weights[..] == ws
      invariant whole == Prepend(tasks[..i], Split(remaining, ws[i..], remW, offset))
    {
      var cnt := remaining;
      ghost var before := tasks[..i];
      ghost var rest := ws[i..];
      assert rest[0] == weights[i] && rest[1..] == ws[i + 1..];
      if i < k - 1 {
        if remW == 0 {
          panics := true;
          return;
        }
        DealStep(before, remaining, rest, remW, offset);
        cnt := Portion(remaining, weights[i], remW);
        remaining := remaining - cnt;
        remW := Wrap(remW - weights[i]);
      } else {
        DealLast(before, remaining, rest, remW, offset);
      }
      tasks[i] := Task(offset, cnt);
      assert tasks[..i + 1] == before + [Task(offset, cnt)];
      offset := offset + cnt;
    }
    assert tasks[..k] == tasks[..] && ws[k..] == [];
    assert tasks[..] + [] == tasks[..];
  }

  lemma DealStep(before: seq<Task>, rem: int, rest: seq<int>, remW: int, offset: int)
    requires |rest| > 1 && remW != 0
    ensures var p := Share(rem, rest[0], remW);
            Prepend(before, Split(rem, rest, remW, offset))
            == Prepend(before + [Task(offset, p)], Split(rem - p, rest[1..], Wrap(remW - rest[0]), offset + p))
  {
    var p := Share(rem, rest[0], remW);
    PrependAssoc(before, [Task(offset, p)], Split(rem - p, rest[1..], Wrap(remW - rest[0]), offset + p));
  }

  lemma DealLast(before: seq<Task>, rem: int, rest: seq<int>, remW: int, offset: int)
    requires |rest| == 1
    ensures Prepend(before, Split(rem, rest, remW, offset))
         == Prepend(before + [Task(offset, rem)], Split(rem, rest[1..], remW, offset + rem))
  {
    assert before + [Task(offset, rem)] + [] == before + [Task(offset, rem)];
  }

  lemma PrependNothing<T>(o: Option<seq<T>>)
    ensures Prepend([], o) == o
  {
    if o.Some? { assert [] + o.value == o.value; }
  }

  lemma PrependAssoc<T>(xs: seq<T>, ys: seq<T>, o: Option<seq<T>>)
    ensures Prepend(xs, Prepend(ys, o)) == Prepend(xs + ys, o)
  {
    if o.Some? { assert xs + (ys + o.value) == (xs + ys) + o.value; }
  }

  lemma {:induction false} SumSnoc(ws: seq<int>, w: int)
    ensures Sum(ws + [w]) == Sum(ws) + w
  {
    if ws == [] {
      assert ws + [w] == [w];
    } else {
      SumSnoc(ws[1..], w);
      assert (ws + [w])[1..] == ws[1..] + [w];
    }
  }

  // ---------------------------------------------------------------- tiling holds for every input

  /** Whatever the weights and however the arithmetic wraps, the tasks tile the request. */
  lemma {:induction false} SplitTiles(rem: int, ws: seq<int>, remW: int, offset: int)
    requires 0 <= rem && ws != []
    ensures var o := Split(rem, ws, remW, offset);
            o.Some? ==> |o.value| == |ws| && Tiles(o.value, offset, offset + rem)
  {
    if |ws| > 1 && remW != 0 {
      var p := Share(rem, ws[0], remW);
      var rest := Split(rem - p, ws[1..], Wrap(remW - ws[0]), offset + p);
      SplitTiles(rem - p, ws[1..], Wrap(remW - ws[0]), offset + p);
      if rest.Some? { assert ([Task(offset, p)] + rest.value)[1..] == rest.value; }
    }
  }

  /** In a tiling every index of the request belongs to exactly one task. */
  lemma {:induction false} TilesCoverOnce(ts: seq<Task>, lo: int, hi: int, j: int) returns (i: nat)
    requires Tiles(ts, lo, hi) && lo <= j < hi
    ensures i < |ts| && ts[i].start <= j < ts[i].start + ts[i].count
    ensures forall i' :: 0 <= i' < |ts| && i' != i ==> !(ts[i'].start <= j < ts[i'].start + ts[i'].count)
  {
    TilesBounds(ts[1..], lo + ts[0].count, hi);
    if j < lo + ts[0].count {
      i := 0;
      forall i' | 0 <= i' < |ts| && i' != i ensures !(ts[i'].start <= j) {
        assert ts[i'] == ts[1..][i' - 1];
      }
    } else {
      var r := TilesCoverOnce(ts[1..], lo + ts[0].count, hi, j);
      i := r + 1;
      forall i' | 0 <= i' < |ts| && i' != i ensures !(ts[i'].start <= j < ts[i'].start + ts[i'].count) {
        if i' > 0 { assert ts[i'] == ts[1..][i' - 1]; }
      }
    }
  }

  lemma {:induction false} TilesBounds(ts: seq<Task>, lo: int, hi: int)
    requires Tiles(ts, lo, hi)
    ensures lo <= hi
    ensures forall i :: 0 <= i < |ts| ==> lo <= ts[i].start && 0 <= ts[i].count && ts[i].start + ts[i].count <= hi
  {
    if ts != [] {
      TilesBounds(ts[1..], lo + ts[0].count, hi);
      assert forall i :: 0 < i < |ts| ==> ts[i] == ts[1..][i - 1];
    }
  }

  // ---------------------------------------------------------------- when the division panics

  predicate SuffixWraps(ws: seq<int>, i: int)
    requires 0 <= i <= |ws|
  {
    Sum(ws[i..]) % TWO_64 == 0
  }

  /** The split panics exactly when the weights of some worker that is not the last, and of
      all after it, add up to a multiple of 2^64. */
  lemma {:induction false} SplitPanicsIff(rem: int, ws: seq<int>, offset: int)
    ensures Split(rem, ws, Wrap(Sum(ws)), offset).None?
       <==> exists i :: 0 <= i < |ws| - 1 && SuffixWraps(ws, i)
  {
    SplitPanicsIfSome(rem, ws, offset);
    SomeSuffixWrapsMeaning(ws);
  }

  predicate SomeSuffixWraps(ws: seq<int>) {
    |ws| > 1 && (Sum(ws) % TWO_64 == 0 || SomeSuffixWraps(ws[1..]))
  }

  lemma {:induction false} SplitPanicsIfSome(rem: int, ws: seq<int>, offset: int)
    decreases |ws|
    ensures Split(rem, ws, Wrap(Sum(ws)), offset).None? <==> SomeSuffixWraps(ws)
  {
    if |ws| > 1 {
      var remW := Wrap(Sum(ws));
      WrapZero(Sum(ws));
      if remW != 0 {
        var p := Share(rem, ws[0], remW);
        WrapSub(Sum(ws), ws[0]);
        SplitPanicsIfSome(rem - p, ws[1..], offset + p);
      }
    }
  }

  lemma {:induction false} SomeSuffixWrapsMeaning(ws: seq<int>)
    ensures SomeSuffixWraps(ws) <==> exists i :: 0 <= i < |ws| - 1 && SuffixWraps(ws, i)
  {
    if |ws| > 1 {
      var tail := ws[1..];
      SomeSuffixWrapsMeaning(tail);
      assert ws[0..] == ws;
      if Sum(ws) % TWO_64 == 0 {
        assert SuffixWraps(ws, 0);
      }
      if i :| 0 <= i < |tail| - 1 && SuffixWraps(tail, i) {
        assert tail[i..] == ws[i + 1..];
        assert SuffixWraps(ws, i + 1);
      }
      if i :| 0 < i < |ws| - 1 && SuffixWraps(ws, i) {
        assert tail[i - 1..] == ws[i..];
        assert SuffixWraps(tail, i - 1);
      }
    }
  }

  lemma {:induction false} SuffixSumBounds(ws: seq<int>, i: int)
    requires AllPositive(ws) && 0 <= i < |ws|
    ensures 0 < Sum(ws[i..]) <= Sum(ws)
  {
    if |ws| == 1 {
      assert ws[i..] == ws;
    } else if i == 0 {
      SuffixSumBounds(ws[1..], 0);
      assert ws[1..][0..] == ws[1..] && ws[0..] == ws;
    } else {
      SuffixSumBounds(ws[1..], i - 1);
      assert ws[i..] == ws[1..][i - 1..];
    }
  }

  /** In particular no pool whose weights add up to less than 2^64 makes it panic. */
  lemma {:induction false} SplitNeverPanicsBelow(rem: int, ws: seq<int>)
    requires AllPositive(ws) && Sum(ws) < TWO_64
    ensures Split(rem, ws, Wrap(Sum(ws)), 0).Some?
  {
    SplitPanicsIff(rem, ws, 0);
    forall i | 0 <= i < |ws| - 1 ensures !SuffixWraps(ws, i) {
      SuffixSumBounds(ws, i);
    }
  }

  /** Four workers that each ask for 2^62 items do. */
  lemma {:induction false} SplitCanPanic()
    ensures var w := 0x4000_0000_0000_0000;
            IsInt64(w) && Split(100, [w, w, w, w], Wrap(Sum([w, w, w, w])), 0).None?
  {
    var w := 0x4000_0000_0000_0000;
    var ws := [w, w, w, w];
    SumOfEqual(ws, w);
    WrapZero(Sum(ws));
  }

  /** Both loops of the multi-worker branch: the tasks tile the request, worker by worker, and
      the division panics exactly when the weights of some suffix wrap around to zero. */
  method PlanTasks(size: nat, desired: seq<int>, preferred: seq<int>) returns (panics: bool, tasks: array<Task>)
    requires |desired| == |preferred| > 0
    ensures var ws := Weights(desired, preferred, size);
      && Split(size, ws, Wrap(Sum(ws)), 0) == (if panics then None else Some(tasks[..]))
      && (panics <==> exists i :: 0 <= i < |ws| - 1 && SuffixWraps(ws, i))
    ensures !panics ==> tasks.Length == |desired| && Tiles(tasks[..], 0, size)
  {
    var weights, total := Weigh(size, desired, preferred);
    ghost var ws := weights[..];
    panics, tasks := Deal(size, weights, total);
    SplitPanicsIff(size, ws, 0);
    SplitTiles(size, ws, total, 0);
  }

  // ---------------------------------------------------------------- proportionality

  /** The split over unbounded integers. */
  function Exact(rem: nat, ws: seq<int>, offset: int): (ts: seq<Task>)
    requires AllPositive(ws)
    ensures |ts| == |ws|
  {
    if ws == [] then []
    else if |ws| == 1 then [Task(offset, rem)]
    else
      SuffixSumBounds(ws, 0);
      assert ws[0..] == ws;
      var p := Clamp(rem * ws[0] / Sum(ws), rem);
      [Task(offset, p)] + Exact(rem - p, ws[1..], offset + p)
  }

  lemma MulMono(a: int, b: int, c: int, d: int)
    requires 0 <= a <= c && 0 <= b <= d
    ensures 0 <= a * b <= c * d
  {
    assert a * b <= c * b by { assert (c - a) * b >= 0; }
    assert c * b <= c * d by { assert c * (d - b) >= 0; }
  }

  /** The total weight, and the size times each weight, fit in 64 bits. */
  predicate Fits(size: nat, ws: seq<int>) {
    Sum(ws) < TWO_63 && forall i :: 0 <= i < |ws| ==> size * ws[i] < TWO_63
  }

  lemma FitsTail(size: nat, ws: seq<int>, rem: nat)
    requires AllPositive(ws) && |ws| > 1 && Fits(size, ws) && rem <= size
    ensures AllPositive(ws[1..]) && Fits(rem, ws[1..])
  {
    SuffixSumBounds(ws, 1);
    forall i | 0 <= i < |ws[1..]| ensures rem * ws[1..][i] < TWO_63 {
      assert ws[1..][i] == ws[i + 1];
      MulMono(rem, ws[i + 1], size, ws[i + 1]);
    }
  }

  /** Then no intermediate value wraps. */
  lemma {:induction false} SplitIsExact(rem: nat, ws: seq<int>, offset: int)
    requires AllPositive(ws) && Fits(rem, ws)
    ensures Split(rem, ws, Wrap(Sum(ws)), offset) == Some(Exact(rem, ws, offset))
  {
    if |ws| > 1 {
      SuffixSumBounds(ws, 0);
      assert ws[0..] == ws;
      MulMono(0, ws[0], rem, ws[0]);
      var p := Clamp(rem * ws[0] / Sum(ws), rem);
      FitsTail(rem, ws, rem - p);
      SplitIsExact(rem - p, ws[1..], offset + p);
    }
  }

  /** Greedy rounding never starves the rest: if every weight is worth at least one item,
      each worker gets at least the floor of its proportional share. */
  lemma {:induction false} ShareAtLeastFloor(rem: nat, ws: seq<int>, offset: int, size: nat, total: int)
    requires AllPositive(ws) && 0 < total
    requires rem * total >= size * Sum(ws)
    requires forall i :: 0 <= i < |ws| ==> size * ws[i] >= total
    ensures forall i :: 0 <= i < |ws| ==> Exact(rem, ws, offset)[i].count >= size * ws[i] / total >= 1
  {
    if ws == [] { return; }
    var ts := Exact(rem, ws, offset);
    SuffixSumBounds(ws, 0);
    assert ws[0..] == ws;
    var v, w := Sum(ws), ws[0];
    FloorOf(size * w, total);
    if |ws| == 1 {
      assert v == w by { assert Sum(ws[1..]) == 0; }
      assert size * w / total * total <= rem * total;
      DivideBoth(size * w / total, rem, total);
    } else {
      SuffixSumBounds(ws, 1);
      var q := rem * w / v;
      StepKeepsRatio(rem, w, v, size, total);
      var p := Clamp(q, rem);
      assert p == q by { RatioAtMostOne(rem, w, v); }
      ShareAtLeastFloor(rem - p, ws[1..], offset + p, size, total);
      forall i | 0 <= i < |ws| ensures ts[i].count >= size * ws[i] / total >= 1 {
        if i > 0 {
          assert ws[i] == ws[1..][i - 1];
          assert ts[i] == Exact(rem - p, ws[1..], offset + p)[i - 1];
        }
      }
    }
  }

  lemma FloorOf(a: int, b: int)
    requires a >= b > 0
    ensures a / b >= 1 && a / b * b <= a
  {
    FloorIsLargest(1, a, b);
  }

  lemma DivideBoth(a: int, b: int, c: int)
    requires 0 < c && a * c <= b * c
    ensures a <= b
  {
    if a > b { StrictMul(a, b, c); }
  }

  lemma StrictMul(a: int, b: int, c: int)
    requires 0 < c && b < a
    ensures b * c < a * c
  {
    MulMonoLeft(1, a - b, c);
    assert a * c == (a - b) * c + b * c;
  }

  lemma RatioAtMostOne(rem: nat, w: int, v: int)
    requires 0 < w <= v
    ensures rem * w / v <= rem
  {
    MulMono(rem, w, rem, v);
    assert rem * w / v * v <= rem * w;
    DivideBoth(rem * w / v, rem, v);
  }

  /** One step of the greedy split: the share is at least the floor of the fair share, and
      items per unit of weight do not go down for those who are left. */
  lemma StepKeepsRatio(rem: nat, w: int, v: int, size: nat, total: int)
    requires 0 < w <= v && 0 < total
    requires rem * total >= size * v
    ensures rem * w / v >= size * w / total
    ensures (rem - rem * w / v) * total >= size * (v - w)
  {
    var q, f := rem * w / v, size * w / total;
    calc {
      f * v * total;
      == { MulShuffle(f, v, total); }
      f * total * v;
      <= { assert f * total <= size * w; MulMonoLeft(f * total, size * w, v); }
      size * w * v;
      == { MulShuffle(size, w, v); }
      size * v * w;
      <= { MulMonoLeft(size * v, rem * total, w); }
      rem * total * w;
      == { MulShuffle(rem, total, w); }
      rem * w * total;
    }
    DivideBoth(f * v, rem * w, total);
    FloorIsLargest(f, rem * w, v);
    calc {
      size * (v - w) * v;
      == { MulShuffle(size, v - w, v); }
      size * v * (v - w);
      <= { MulMonoLeft(size * v, rem * total, v - w); }
      rem * total * (v - w);
      == { MulShuffle(rem, total, v - w); }
      rem * (v - w) * total;
      <= { assert q * v <= rem * w; Distribute(rem, q, v, w); MulMonoLeft(rem * (v - w), (rem - q) * v, total); }
      (rem - q) * v * total;
      == { MulShuffle(rem - q, v, total); }
      (rem - q) * total * v;
    }
    DivideBoth(size * (v - w), (rem - q) * total, v);
  }

  lemma MulShuffle(a: int, b: int, c: int)
    ensures a * b * c == a * c * b
  {
    assert a * b * c == a * (b * c) && a * c * b == a * (c * b);
  }

  lemma MulMonoLeft(a: int, b: int, c: int)
    requires a <= b && 0 <= c
    ensures a * c <= b * c
  {
    assert (b - a) * c >= 0;
  }

  lemma Distribute(rem: int, q: int, v: int, w: int)
    requires q * v <= rem * w
    ensures rem * (v - w) <= (rem - q) * v
  {
    assert rem * (v - w) == rem * v - rem * w;
    assert (rem - q) * v == rem * v - q * v;
  }

  lemma FloorIsLargest(f: int, a: int, b: int)
    requires 0 < b && f * b <= a
    ensures f <= a / b
  {
    var q := a / b;
    assert a < (q + 1) * b;
    if q < f { MulMonoLeft(q + 1, f, b); }
  }

  /** The promise over the machine split: enough items for every weight means every worker
      gets its floor, hence no chunk is empty. */
  lemma {:induction false} EveryWorkerGetsItsFloor(size: nat, ws: seq<int>)
    requires ws != [] && AllPositive(ws) && Fits(size, ws)
    requires forall i :: 0 <= i < |ws| ==> size * ws[i] >= Sum(ws)
    ensures var o := Split(size, ws, Wrap(Sum(ws)), 0);
            0 < Sum(ws) && o.Some? && |o.value| == |ws|
            && forall i :: 0 <= i < |ws| ==> o.value[i].count >= size * ws[i] / Sum(ws) >= 1
  {
    SuffixSumBounds(ws, 0);
    assert ws[0..] == ws;
    SplitIsExact(size, ws, 0);
    ShareAtLeastFloor(size, ws, 0, size, Sum(ws));
  }

  // ---------------------------------------------------------------- equal weights

  lemma {:induction false} SumOfEqual(ws: seq<int>, w: int)
    requires forall i :: 0 <= i < |ws| ==> ws[i] == w
    ensures Sum(ws) == |ws| * w
  {
    if ws != [] {
      SumOfEqual(ws[1..], w);
      assert (|ws| - 1) * w + w == |ws| * w;
    }
  }

  lemma {:induction false} EqualSharesFrom(rem: nat, ws: seq<int>, offset: int, w: int, lo: nat, hi: nat)
    requires 0 < w && AllPositive(ws) && forall i :: 0 <= i < |ws| ==> ws[i] == w
    requires 1 <= lo <= hi <= lo + 1
    requires |ws| * lo <= rem <= |ws| * hi
    ensures forall i :: 0 <= i < |ws| ==> lo <= Exact(rem, ws, offset)[i].count <= hi
  {
    if |ws| <= 1 { return; }
    var m := |ws|;
    SumOfEqual(ws, w);
    CancelFactor(rem, m, w);
    var q := rem / m;
    DealOneShare(rem, m, lo, hi);
    EqualSharesFrom(rem - q, ws[1..], offset + q, w, lo, hi);
    var rest := Exact(rem - q, ws[1..], offset + q);
    assert Exact(rem, ws, offset) == [Task(offset, q)] + rest;
    forall i | 0 <= i < m ensures lo <= Exact(rem, ws, offset)[i].count <= hi {
      if i > 0 { assert Exact(rem, ws, offset)[i] == rest[i - 1]; }
    }
  }

  /** Taking the floor of an even share leaves the others between floor and ceiling too. */
  lemma DealOneShare(rem: nat, m: int, lo: nat, hi: nat)
    requires 1 < m && 1 <= lo <= hi <= lo + 1
    requires m * lo <= rem <= m * hi
    ensures lo <= rem / m <= hi && rem / m <= rem
    ensures (m - 1) * lo <= rem - rem / m <= (m - 1) * hi
  {
    var q := rem / m;
    DivBetween(rem, m, lo, hi);
    assert m * q <= rem < m * q + m;
    MulMonoLeft(1, m, q);
    assert (m - 1) * lo == m * lo - lo && (m - 1) * hi == m * hi - hi;
    if hi != lo {
      assert m * hi == m * lo + m;
    }
  }

  lemma CancelFactor(a: nat, m: int, w: int)
    requires 0 < m && 0 < w
    ensures 0 < m * w && a * w / (m * w) == a / m
  {
    MulMono(1, 1, m, w);
    var q := a / m;
    MulMonoLeft(q * m, a, w);
    MulShuffle(q, m, w);
    assert q * (m * w) == q * m * w;
    FloorIsLargest(q, a * w, m * w);
    var r := a * w / (m * w);
    assert r * (m * w) <= a * w;
    assert r * (m * w) == r * m * w;
    DivideBoth(r * m, a, w);
    FloorIsLargest(r, a, m);
  }

  lemma DivBetween(a: nat, m: int, lo: nat, hi: nat)
    requires 0 < m && m * lo <= a <= m * hi
    ensures lo <= a / m <= hi
  {
    assert lo * m == m * lo && hi * m == m * hi;
    FloorIsLargest(lo, a, m);
    assert a / m * m <= a;
    DivideBoth(a / m, hi, m);
  }

  /** Equal weights (the default) give every worker the floor or the ceiling of size / k. */
  lemma {:induction false} EqualWeightsShareEvenly(size: nat, ws: seq<int>, w: int)
    requires ws != [] && |ws| <= size && 0 < w && forall i :: 0 <= i < |ws| ==> ws[i] == w
    requires Fits(size, ws)
    ensures var o := Split(size, ws, Wrap(Sum(ws)), 0);
            o.Some? && |o.value| == |ws|
            && forall i :: 0 <= i < |ws| ==> size / |ws| <= o.value[i].count <= (size + |ws| - 1) / |ws|
  {
    SplitIsExact(size, ws, 0);
    FloorAndCeiling(size, |ws|);
    EqualSharesFrom(size, ws, 0, w, size / |ws|, (size + |ws| - 1) / |ws|);
  }

  lemma FloorAndCeiling(a: nat, m: int)
    requires 0 < m <= a
    ensures var lo, hi := a / m, (a + m - 1) / m;
            1 <= lo <= hi <= lo + 1 && m * lo <= a <= m * hi
  {
    var lo, hi := a / m, (a + m - 1) / m;
    DivBounds(a, m);
    DivBounds(a + m - 1, m);
    FloorIsLargest(1, a, m);
    FloorIsLargest(lo, a + m - 1, m);
    assert (hi - 1) * m == hi * m - m;
    FloorIsLargest(hi - 1, a, m);
  }

  lemma DivBounds(a: nat, m: int)
    requires 0 < m
    ensures a / m * m == m * (a / m) && a / m * m <= a < a / m * m + m
  {
  }

  // ---------------------------------------------------------------- empty chunks

  /** No worker but the last is left empty-handed while items remain. */
  predicate Generous(ts: seq<Task>, rem: int) {
    |ts| > 1 ==> (0 < rem ==> 0 < ts[0].count) && Generous(ts[1..], rem - ts[0].count)
  }

  lemma {:induction false} SplitIsGenerous(rem: int, ws: seq<int>, remW: int, offset: int)
    ensures var o := Split(rem, ws, remW, offset); o.Some? ==> |o.value| == |ws| && Generous(o.value, rem)
    decreases |ws|
  {
    if |ws| > 1 && remW != 0 {
      var p := Share(rem, ws[0], remW);
      var rest := Split(rem - p, ws[1..], Wrap(remW - ws[0]), offset + p);
      SplitIsGenerous(rem - p, ws[1..], Wrap(remW - ws[0]), offset + p);
      if rest.Some? { assert ([Task(offset, p)] + rest.value)[1..] == rest.value; }
    }
  }

  lemma {:induction false} GenerousTiling(ts: seq<Task>, lo: int, hi: int)
    requires ts != [] && Tiles(ts, lo, hi) && Generous(ts, hi - lo)
    ensures (forall i :: 0 <= i < |ts| ==> 0 < ts[i].count) <==> 0 < ts[|ts| - 1].count
  {
    if |ts| > 1 {
      var tail := ts[1..];
      GenerousTiling(tail, lo + ts[0].count, hi);
      TilesBounds(tail, lo + ts[0].count, hi);
      assert forall i :: 0 <= i < |tail| ==> tail[i] == ts[i + 1];
      assert tail[|tail| - 1] == ts[|ts| - 1];
    }
  }

  /** Every chunk is non-empty exactly when the last one is: only the last worker can be the
      first to find nothing left. */
  lemma {:induction false} NonEmptyIffLastNonEmpty(size: int, ws: seq<int>, total: int)
    requires 0 <= size && ws != [] && Split(size, ws, total, 0).Some?
    ensures var ts := Split(size, ws, total, 0).value;
            |ts| == |ws| && ((forall i :: 0 <= i < |ts| ==> 0 < ts[i].count) <==> 0 < ts[|ts| - 1].count)
  {
    SplitTiles(size, ws, total, 0);
    SplitIsGenerous(size, ws, total, 0);
    GenerousTiling(Split(size, ws, total, 0).value, 0, size);
  }

  /** The least size that the split deals out without leaving a chunk empty. */
  function LeastSize(ws: seq<int>): (n: nat)
    requires ws != [] && AllPositive(ws)
    ensures 1 <= n
  {
    if |ws| == 1 then 1
    else
      var rest := ws[1..];
      assert rest[0..] == rest;
      SuffixSumBounds(rest, 0);
      SuffixSumBounds(ws, 0);
      assert ws[0..] == ws;
      MaxOf(LeastSize(rest) + 1, DivNat((LeastSize(rest) - 1) * Sum(ws), Sum(rest)) + 1)
  }

  function MaxOf(a: nat, b: nat): nat {
    if a < b then b else a
  }

  function DivNat(a: int, b: int): (q: nat)
    requires 0 < b
    ensures 0 <= a ==> q == a / b
  {
    if a < 0 then 0 else a / b
  }

  lemma FloorBelowIff(a: int, b: int, c: int)
    requires 0 < b
    ensures a / b < c <==> a < c * b
  {
    if a < c * b {
      if c <= a / b { MulMonoLeft(c, a / b, b); }
    } else {
      FloorIsLargest(c, a, b);
    }
  }

  /** What is left after one share suffices for the rest exactly when there was enough. */
  lemma EnoughLeftIff(n: nat, w: int, v: int, r: nat)
    requires 0 < n && 0 < w && 0 < v && 1 <= r
    ensures n - Clamp(n * w / (w + v), n) >= r <==> n >= r + 1 && n >= (r - 1) * (w + v) / v + 1
  {
    var total := w + v;
    RatioAtMostOne(n, w, total);
    FloorBelowIff(n * w, total, n - r + 1);
    FloorBelowIff((r - 1) * total, v, n);
    assert (n - r + 1) * total == n * w + n * v - (r - 1) * total;
  }

  predicate NoneEmpty(ts: seq<Task>) {
    forall i :: 0 <= i < |ts| ==> 0 < ts[i].count
  }

  lemma NoneEmptyCons(t: Task, ts: seq<Task>)
    ensures NoneEmpty([t] + ts) <==> 0 < t.count && NoneEmpty(ts)
  {
    var all := [t] + ts;
    assert all[0] == t && forall i :: 0 <= i < |ts| ==> ts[i] == all[i + 1];
  }

  /** The share of the first of several workers. */
  function FirstShare(n: nat, ws: seq<int>): (p: nat)
    requires |ws| > 1 && AllPositive(ws)
    ensures p <= n && (0 < n ==> 0 < p)
  {
    SuffixSumBounds(ws, 0);
    assert ws[0..] == ws;
    MulMono(0, 0, n, ws[0]);
    Clamp(n * ws[0] / Sum(ws), n)
  }

  lemma ExactStep(n: nat, ws: seq<int>, offset: int)
    requires |ws| > 1 && AllPositive(ws)
    ensures var p := FirstShare(n, ws);
      Exact(n, ws, offset) == [Task(offset, p)] + Exact(n - p, ws[1..], offset + p)
  {
  }

  /** There is enough for all exactly when the first share leaves enough for the rest. */
  lemma EnoughStep(n: nat, ws: seq<int>)
    requires |ws| > 1 && AllPositive(ws)
    ensures n >= LeastSize(ws) <==> 0 < FirstShare(n, ws) && n - FirstShare(n, ws) >= LeastSize(ws[1..])
  {
    LeastSizeStep(n, ws);
    if 0 < n {
      EnoughLeftIff(n, ws[0], Sum(ws[1..]), LeastSize(ws[1..]));
    }
  }

  lemma ExactOne(n: nat, ws: seq<int>, offset: int)
    requires |ws| == 1 && AllPositive(ws)
    ensures NoneEmpty(Exact(n, ws, offset)) <==> n >= LeastSize(ws)
  {
    assert Exact(n, ws, offset) == [] + [Task(offset, n)];
    NoneEmptyCons(Task(offset, n), []);
  }

  lemma {:induction false} ExactNonEmptyIff(n: nat, ws: seq<int>, offset: int)
    requires ws != [] && AllPositive(ws)
    ensures NoneEmpty(Exact(n, ws, offset)) <==> n >= LeastSize(ws)
    decreases |ws|
  {
    if |ws| == 1 {
      ExactOne(n, ws, offset);
    } else {
      var p, rest := FirstShare(n, ws), ws[1..];
      var tail := Exact(n - p, rest, offset + p);
      ExactNonEmptyIff(n - p, rest, offset + p);
      calc {
        NoneEmpty(Exact(n, ws, offset));
        { ExactStep(n, ws, offset); }
        NoneEmpty([Task(offset, p)] + tail);
        { NoneEmptyCons(Task(offset, p), tail); }
        0 < p && NoneEmpty(tail);
        0 < p && n - p >= LeastSize(rest);
        { EnoughStep(n, ws); }
        n >= LeastSize(ws);
      }
    }
  }

  lemma LeastSizeStep(n: nat, ws: seq<int>)
    requires |ws| > 1 && AllPositive(ws)
    ensures var r := LeastSize(ws[1..]);
      && 0 < Sum(ws[1..])
      && (n >= LeastSize(ws) <==> n >= r + 1 && n >= (r - 1) * Sum(ws) / Sum(ws[1..]) + 1)
  {
    var rest := ws[1..];
    SuffixSumBounds(ws, 0);
    SuffixSumBounds(rest, 0);
    assert ws[0..] == ws && rest[0..] == rest;
    MulMono(0, Sum(ws), LeastSize(rest) - 1, Sum(ws));
  }

  /** The exact condition on size and weights: no chunk is empty if and only if the size is at
      least the least size of the weights. */
  lemma {:induction false} NonEmptyIffEnough(size: nat, ws: seq<int>)
    requires ws != [] && AllPositive(ws) && Fits(size, ws)
    ensures var o := Split(size, ws, Wrap(Sum(ws)), 0);
      && o.Some? && |o.value| == |ws|
      && (NoneEmpty(o.value) <==> size >= LeastSize(ws))
  {
    SplitIsExact(size, ws, 0);
    ExactNonEmptyIff(size, ws, 0);
  }

  /** Weights 1000, 1 and 1 need 502 items. */
  lemma {:induction false} HeavyFirstWorkerNeedsMany()
    ensures LeastSize([1000, 1, 1]) == 502
  {
    assert [1000, 1, 1][1..] == [1, 1] && [1, 1][1..] == [1];
    assert Sum([1]) == 1 && Sum([1, 1]) == 2 && Sum([1000, 1, 1]) == 1002;
    assert LeastSize([1]) == 1;
    assert LeastSize([1, 1]) == 2;
  }

  /** A heavy first worker leaves nothing for the third, although there are three items. */
  lemma {:induction false} EmptyChunkExample()
    ensures Split(3, [1000, 1, 1], 1002, 0) == Some([Task(0, 2), Task(2, 1), Task(3, 0)])
  {
    assert [1000, 1, 1][1..] == [1, 1] && [1, 1][1..] == [1];
    assert Share(3, 1000, 1002) == 2 && Share(1, 1, 2) == 1;
    assert Split(0, [1], 1, 3) == Some([Task(3, 0)]);
    DealStep([], 1, [1, 1], 2, 2);
    DealStep([], 3, [1000, 1, 1], 1002, 0);
    PrependNothing(Split(1, [1, 1], 2, 2));
    PrependNothing(Split(3, [1000, 1, 1], 1002, 0));
    assert [] + [Task(2, 1)] + [Task(3, 0)] == [Task(2, 1), Task(3, 0)];
    assert [] + [Task(0, 2)] + [Task(2, 1), Task(3, 0)] == [Task(0, 2), Task(2, 1), Task(3, 0)];
  }
}
