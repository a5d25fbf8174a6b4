/** The middleware chain for any list of middlewares: `Next` counts up and never back, so the
    calls of `Next` in one request visit the list in order, whoever makes them. */
module Middleware {
  import opened Bytes

  /** A middleware works on the request's state and calls `Next` between its steps: after every
      step that does not turn the request away. `last` runs after the last of these calls. */
  datatype Stage<!S> = Stage(steps: seq<S -> Option<S>>, last: S -> S)

  /** The state of a request, the context's counter, and the indices run so far; one past the
      list or more stands for a call of the endpoint. */
  datatype World<S> = World(state: S, idx: int, visited: seq<int>)

  function Upto(a: int, b: int): (s: seq<int>)
    requires a - 1 <= b
    ensures |s| == b - a + 1
    ensures forall i :: 0 <= i < |s| ==> s[i] == a + i
  {
    seq(b - a + 1, i requires 0 <= i < b - a + 1 => a + i)
  }

  lemma {:induction false} VisitsJoin(visited: seq<int>, a: int, b: int, c: int)
    requires a - 1 <= b <= c
    ensures visited + Upto(a, b) + Upto(b + 1, c) == visited + Upto(a, c)
  {
    assert Upto(a, b) + Upto(b + 1, c) == Upto(a, c);
    assert visited + Upto(a, b) + Upto(b + 1, c) == visited + (Upto(a, b) + Upto(b + 1, c));
  }

  // ---------- what a call of `Next` does ----------

  function Left(n: nat, idx: int): nat {
    if idx < n then n - idx else 0
  }

  /** However often the stages call `Next`, the n-th call runs index n of the chain. */
  function RunNext<S>(stages: seq<Stage<S>>, endpoint: S -> S, w: World<S>): (w': World<S>)
    requires -1 <= w.idx
    ensures w'.idx > w.idx && w'.visited == w.visited + Upto(w.idx + 1, w'.idx)
    decreases Left(|stages|, w.idx), 0, 0
  {
    var k := w.idx + 1;
    var entered := World(w.state, k, w.visited + [k]);
    assert Upto(k, k) == [k];
    if k >= |stages| then entered.(state := endpoint(w.state))
    else
      var w' := RunSteps(stages, endpoint, k, 0, entered);
      VisitsJoin(w.visited, k, k, w'.idx);
      w'
  }

  /** The rest of stage `k` from its step `j` on. */
  function RunSteps<S>(stages: seq<Stage<S>>, endpoint: S -> S, k: nat, j: nat, w: World<S>): (w': World<S>)
    requires k < |stages| && k <= w.idx && j <= |stages[k].steps|
    ensures w'.idx >= w.idx && w'.visited == w.visited + Upto(w.idx + 1, w'.idx)
    decreases Left(|stages|, k), 1, |stages[k].steps| - j
  {
    if j == |stages[k].steps| then
      assert w.visited + [] == w.visited;
      w.(state := stages[k].last(w.state))
    else
      match stages[k].steps[j](w.state)
      case None =>
        assert w.visited + [] == w.visited;
        w
      case Some(state) =>
        var w1 := RunNext(stages, endpoint, w.(state := state));
        var w2 := RunSteps(stages, endpoint, k, j + 1, w1);
        VisitsJoin(w.visited, w.idx + 1, w1.idx, w2.idx);
        w2
  }

  // ---------- chains whose stages call `Next` at most once ----------

  predicate CallsOnce<S>(stages: seq<Stage<S>>) {
    forall k :: 0 <= k < |stages| ==> |stages[k].steps| == 1
  }

  /** Every stage from `k` on lets the request through. */
  predicate AllPass<S>(stages: seq<Stage<S>>, k: nat, state: S)
    requires CallsOnce(stages) && k <= |stages|
    decreases |stages| - k
  {
    k == |stages| || (stages[k].steps[0](state).Some? && AllPass(stages, k + 1, stages[k].steps[0](state).value))
  }

  /** What the endpoint is handed when every stage passes. */
  function Entering<S>(stages: seq<Stage<S>>, k: nat, state: S): S
    requires CallsOnce(stages) && k <= |stages| && AllPass(stages, k, state)
    decreases |stages| - k
  {
    if k == |stages| then state else Entering(stages, k + 1, stages[k].steps[0](state).value)
  }

  /** Stages `k` and on, leaving in reverse order. */
  function Leaving<S>(stages: seq<Stage<S>>, k: nat, state: S): S
    requires k <= |stages|
    decreases |stages| - k
  {
    if k == |stages| then state else stages[k].last(Leaving(stages, k + 1, state))
  }

  /** With at most one call of `Next` in each, a request gets to the endpoint exactly when every
      stage lets it through; then the endpoint runs once, between all the entering steps and,
      in reverse order, all the leaving ones. Otherwise it never runs. */
  lemma {:induction false} EndpointRunsIffAllPass<S>(stages: seq<Stage<S>>, endpoint: S -> S, w: World<S>)
    requires CallsOnce(stages) && -1 <= w.idx < |stages|
    ensures var w' := RunNext(stages, endpoint, w);
      && w'.idx <= |stages|
      && (w'.idx == |stages| <==> AllPass(stages, w.idx + 1, w.state))
      && (AllPass(stages, w.idx + 1, w.state) ==>
            w'.state == Leaving(stages, w.idx + 1, endpoint(Entering(stages, w.idx + 1, w.state))))
    decreases |stages| - w.idx
  {
    var k := w.idx + 1;
    if k < |stages| && stages[k].steps[0](w.state).Some? {
      var w1 := World(stages[k].steps[0](w.state).value, k, w.visited + [k]);
      EndpointRunsIffAllPass(stages, endpoint, w1);
      assert RunSteps(stages, endpoint, k, 1, RunNext(stages, endpoint, w1)).idx == RunNext(stages, endpoint, w1).idx;
    }
  }

  /** A stage that calls `Next` twice makes the endpoint run twice: the counter is past the list
      by then. */
  lemma {:induction false} SecondNextRunsEndpointAgain<S>(stage: Stage<S>, endpoint: S -> S, w: World<S>)
    requires w.idx == -1 && |stage.steps| == 2
    requires stage.steps[0](w.state).Some?
    requires stage.steps[1](endpoint(stage.steps[0](w.state).value)).Some?
    ensures RunNext([stage], endpoint, w).visited == w.visited + [0, 1, 2]
  {
    var w1 := World(stage.steps[0](w.state).value, 0, w.visited + [0]);
    var w2 := RunNext([stage], endpoint, w1);
    assert w2.idx == 1 && w2.state == endpoint(w1.state);
    var w3 := RunNext([stage], endpoint, w2.(state := stage.steps[1](w2.state).value));
    assert RunSteps([stage], endpoint, 0, 2, w3).idx == 2;
    assert RunSteps([stage], endpoint, 0, 1, w2).idx == 2;
  }

  // ---------- the context ----------

  class Context<S> {
    const stages: seq<Stage<S>>
    const endpoint: S -> S
    var state: S
    var mdwIdx: int
    ghost var visited: seq<int>

    constructor (stages: seq<Stage<S>>, endpoint: S -> S, state: S)
      ensures this.stages == stages && this.endpoint == endpoint
      ensures Now() == World(state, -1, [])
    {
      this.stages, this.endpoint, this.state, mdwIdx, visited := stages, endpoint, state, -1, [];
    }

    ghost function Now(): World<S>
      reads this
    {
      World(state, mdwIdx, visited)
    }

    method Next()
      requires -1 <= mdwIdx
      modifies this
      ensures Now() == RunNext(stages, endpoint, old(Now()))
      decreases Left(|stages|, mdwIdx), 0
    {
      mdwIdx := mdwIdx + 1;
      visited := visited + [mdwIdx];
      if mdwIdx < |stages| {
        Process(mdwIdx);
      } else {
        state := endpoint(state);
      }
    }

    /** The body of stage `k`. */
    method Process(k: nat)
      requires k < |stages| && k == mdwIdx
      modifies this
      ensures Now() == RunSteps(stages, endpoint, k, 0, old(Now()))
      decreases Left(|stages|, k), 1
    {
      var j := 0;
      while j < |stages[k].steps|
        invariant j <= |stages[k].steps| && mdwIdx >= k
        invariant RunSteps(stages, endpoint, k, j, Now()) == RunSteps(stages, endpoint, k, 0, old(Now()))
      {
        var next := stages[k].steps[j](state);
        if next.None? {
          return;
        }
        state := next.value;
        Next();
        j := j + 1;
      }
      state := stages[k].last(state);
    }
  }
}
