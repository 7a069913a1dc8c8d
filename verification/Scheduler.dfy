/**
  The choice of a worker (sdk/base/worker/scheduler.go) and the scorer for language models
  (modules/llm/ext/scorer.go).

  Workers are looked at one by one, each under its own lock: `workers` holds each as it was when
  its turn came.  In the second loop every load is read again, and may have changed; `load(k, id)`
  is the load of a worker when the k-th comparison reads it.
*/
module Scheduler {
  import opened Wrappers
  import opened Alias

  datatype Worker = Worker(labels: map<string, bool>, inFlight: int, maxConcurrency: int)

  type Scorer = (string, Worker) -> real

  type Loads = (nat, string) -> int

  predicate Eligible(score: Scorer, minScore: real, task: string, w: Worker) {
    w.inFlight < w.maxConcurrency && score(task, w) >= minScore
  }

  /** No eligible worker scores higher. */
  predicate Best(score: Scorer, minScore: real, task: string, workers: map<string, Worker>, id: string) {
    && id in workers && Eligible(score, minScore, task, workers[id])
    && forall i :: i in workers && Eligible(score, minScore, task, workers[i]) ==>
         score(task, workers[i]) <= score(task, workers[id])
  }

  ghost predicate Unchanging(load: Loads) {
    forall k: nat, id :: load(k, id) == load(0, id)
  }

  /** What PickWorker promises. */
  ghost predicate Picked(
      score: Scorer, minScore: real, task: string, workers: map<string, Worker>, load: Loads, r: Option<string>) {
    match r
    case None => forall id :: id in workers ==> !Eligible(score, minScore, task, workers[id])
    case Some(id) =>
      && Best(score, minScore, task, workers, id)
      && (Unchanging(load) ==> forall i :: Best(score, minScore, task, workers, i) ==> load(0, id) <= load(0, i))
  }

  /** The order in which the registry's map is walked is arbitrary. */
  method PickWorker(score: Scorer, minScore: real, task: string, workers: map<string, Worker>, load: Loads)
    returns (r: Option<string>)
    ensures Picked(score, minScore, task, workers, load, r)
  {
    var best: seq<string>, bestScore: real := [], 0.0;
    var rest := workers.Keys;
    while rest != {}
      invariant rest <= workers.Keys
      invariant forall id :: id in best ==>
        && id in workers && id !in rest && Eligible(score, minScore, task, workers[id])
        && score(task, workers[id]) == bestScore
      invariant forall id :: id in workers && id !in rest && Eligible(score, minScore, task, workers[id]) ==>
        best != [] && (id in best || score(task, workers[id]) < bestScore)
      decreases |rest|
    {
      var id :| id in rest;
      rest := rest - {id};
      var w := workers[id];
      if !(w.inFlight < w.maxConcurrency) {
        continue;
      }
      var sc := score(task, w);
      if sc < minScore {
        continue;
      }
      if |best| == 0 || sc > bestScore {
        best := [id];
        bestScore := sc;
        continue;
      }
      if sc == bestScore {
        best := best + [id];
      }
    }
    if |best| == 0 {
      return None;
    }
    assert forall id :: Best(score, minScore, task, workers, id) <==> id in best by {
      assert best[0] in best;
    }
    var chosen := LeastBusy(best, load);
    return Some(chosen);
  }

  /** The second loop. */
  method LeastBusy(best: seq<string>, load: Loads) returns (chosen: string)
    requires best != []
    ensures chosen in best
    ensures Unchanging(load) ==> forall id :: id in best ==> load(0, chosen) <= load(0, id)
  {
    chosen := best[0];
    var k := 1;
    while k < |best|
      invariant 1 <= k <= |best| && chosen in best
      invariant Unchanging(load) ==> forall j :: 0 <= j < k ==> load(0, chosen) <= load(0, best[j])
    {
      var ci := load(2 * k, best[k]);
      var bi := load(2 * k + 1, chosen);
      if ci < bi {
        chosen := best[k];
      }
      k := k + 1;
    }
  }

  // ---------------------------------------------------------------- language models

  predicate ExactMatch(task: string, w: Worker) {
    task in w.labels && w.labels[task]
  }

  predicate AliasMatch(task: string, w: Worker) {
    exists m :: m in w.labels && Aliases(task, m)
  }

  function LlmScore(task: string, w: Worker): real {
    if ExactMatch(task, w) then 1.0 else if AliasMatch(task, w) then 0.5 else 0.0
  }

  /** With the threshold of 0.01: a worker that has the model beats any that has an alias, one
      that has neither is never chosen, and the choice fails only if no worker with room has
      either. */
  lemma {:induction false} ExactBeatsAlias(task: string, workers: map<string, Worker>, load: Loads, r: Option<string>)
    requires Picked(LlmScore, 0.01, task, workers, load, r)
    ensures r.Some? ==> r.value in workers && workers[r.value].inFlight < workers[r.value].maxConcurrency
    ensures r.Some? ==>
      if exists id :: id in workers && HasRoom(workers[id]) && ExactMatch(task, workers[id])
      then ExactMatch(task, workers[r.value])
      else AliasMatch(task, workers[r.value])
    ensures r.None? <==> forall id :: id in workers && HasRoom(workers[id]) ==>
      !ExactMatch(task, workers[id]) && !AliasMatch(task, workers[id])
  {
    if r.Some? {
      var w := workers[r.value];
      assert Eligible(LlmScore, 0.01, task, w);
      if id :| id in workers && HasRoom(workers[id]) && ExactMatch(task, workers[id]) {
        assert Eligible(LlmScore, 0.01, task, workers[id]);
      }
    } else {
      forall id | id in workers && HasRoom(workers[id])
        ensures !ExactMatch(task, workers[id]) && !AliasMatch(task, workers[id])
      {
        assert !Eligible(LlmScore, 0.01, task, workers[id]);
      }
    }
  }

  predicate HasRoom(w: Worker) {
    w.inFlight < w.maxConcurrency
  }

  /** A choice from some pool that scores nothing. */
  ghost predicate ChoosesUnfit(minScore: real, task: string, workers: map<string, Worker>, load: Loads, id: string) {
    Picked(LlmScore, minScore, task, workers, load, Some(id)) && LlmScore(task, workers[id]) <= 0.0
  }

  /** The scorer's interface calls a score of zero ineligible; the scheduler keeps to that, for
      every pool, task and load, if and only if its threshold is positive. */
  lemma {:induction false} NeverUnfitIff(minScore: real)
    ensures (forall task, workers, load, id :: !ChoosesUnfit(minScore, task, workers, load, id)) <==> minScore > 0.0
  {
    if minScore <= 0.0 {
      var workers := map["w" := Worker(map[], 0, 1)];
      assert Eligible(LlmScore, minScore, "llama:8b", workers["w"]);
      assert ChoosesUnfit(minScore, "llama:8b", workers, (k, id) => 0, "w");
    }
  }
}
