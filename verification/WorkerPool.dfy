/** `mapWithConcurrency`: workers sharing one counter, under every interleaving of their steps. */
module WorkerPool {
  import opened Common

  /** A worker is between calls, waiting for the call on one index, done, or dead of a rejected call. */
  datatype Worker = Idle | Running(index: nat) | Finished | Failed

  /**
   * `calls` lists the indices `fn` was called on, in order; `returned` what each completed call gave back.
   */
  datatype Pool<R> = Pool(
    n: nat, next: nat, workers: seq<Worker>, results: seq<Option<R>>, calls: seq<nat>, returned: map<nat, R>)

  /** Worker `w` takes its next index, or its call resolves to a value, or its call rejects. */
  datatype Event<R> = Take(w: nat) | Resolve(w: nat, value: R) | Reject(w: nat)

  /** `Math.max(1, Math.min(limit, items.length || 1))`. */
  function WorkerCount(limit: int, n: nat): nat { Max(1, Min(limit, if n == 0 then 1 else n)) }

  function Start<R>(n: nat, limit: int): Pool<R> {
    Pool(n, 0, seq(WorkerCount(limit, n), i => Idle), seq(n, i => None), [], map[])
  }

  predicate Enabled<R>(p: Pool<R>, e: Event<R>) {
    && e.w < |p.workers|
    && match e
       case Take(w) => p.workers[w].Idle?
       case Resolve(w, _) => p.workers[w].Running? && p.workers[w].index < |p.results|
       case Reject(w) => p.workers[w].Running?
  }

  function Next<R>(p: Pool<R>, e: Event<R>): Pool<R>
    requires Enabled(p, e)
  {
    match e
    case Take(w) =>
      if p.next >= p.n then p.(next := p.next + 1, workers := p.workers[w := Finished])
      else p.(next := p.next + 1, workers := p.workers[w := Running(p.next)], calls := p.calls + [p.next])
    case Resolve(w, v) =>
      var i := p.workers[w].index;
      p.(workers := p.workers[w := Idle], results := p.results[i := Some(v)], returned := p.returned[i := v])
    case Reject(w) => p.(workers := p.workers[w := Failed])
  }

  ghost predicate Valid<R>(p: Pool<R>) {
    && |p.results| == p.n
    // fn was called on 0, 1, 2, ... in order
    && p.calls == seq(Min(p.next, p.n), i => i)
    // no two workers wait for the same call, and none waits for one that returned
    && (forall v, w | 0 <= v < w < |p.workers| && p.workers[v].Running? && p.workers[w].Running? ::
          p.workers[v].index != p.workers[w].index)
    && (forall w | 0 <= w < |p.workers| && p.workers[w].Running? ::
          p.workers[w].index < Min(p.next, p.n) && p.workers[w].index !in p.returned)
    // results hold exactly what the calls returned, each at its own index
    && (forall i | 0 <= i < p.n :: p.results[i] == if i in p.returned then Some(p.returned[i]) else None)
    && (forall i | i in p.returned :: i < Min(p.next, p.n))
    // a worker stops only when the items are exhausted
    && (forall w | 0 <= w < |p.workers| && p.workers[w].Finished? :: p.next >= p.n)
  }

  /** An index that was taken and is neither waited for nor returned belongs to a call that rejected. */
  ghost predicate Accounted<R>(p: Pool<R>) {
    (forall w | 0 <= w < |p.workers| :: !p.workers[w].Failed?) ==>
      forall i | 0 <= i < Min(p.next, p.n) :: i in p.returned || Running(i) in p.workers
  }

  lemma StartValid<R>(n: nat, limit: int)
    ensures Valid(Start<R>(n, limit)) && Accounted(Start<R>(n, limit))
  {
  }

  lemma TakeValid<R>(p: Pool<R>, w: nat)
    requires Valid(p) && Enabled(p, Take(w))
    ensures Valid(Next(p, Take(w)))
  {
  }

  lemma ResolveValid<R>(p: Pool<R>, w: nat, value: R)
    requires Valid(p) && Enabled(p, Resolve(w, value))
    ensures Valid(Next(p, Resolve(w, value)))
  {
  }

  lemma RejectValid<R>(p: Pool<R>, w: nat)
    requires Valid(p) && Enabled(p, Reject(w))
    ensures Valid(Next(p, Reject(w)))
  {
  }

  lemma KeepsOthers(workers: seq<Worker>, w: nat, after: Worker, x: Worker)
    requires w < |workers| && x in workers && x != workers[w]
    ensures x in workers[w := after]
  {
    var k :| 0 <= k < |workers| && workers[k] == x;
    assert workers[w := after][k] == x;
  }

  lemma NextAccounted<R>(p: Pool<R>, e: Event<R>)
    requires Valid(p) && Accounted(p) && Enabled(p, e)
    ensures Accounted(Next(p, e))
  {
    var q := Next(p, e);
    if forall w | 0 <= w < |q.workers| :: !q.workers[w].Failed? {
      assert q.workers[e.w] in q.workers;
      assert forall w | 0 <= w < |p.workers| :: !p.workers[w].Failed? by {
        forall w | 0 <= w < |p.workers| ensures !p.workers[w].Failed? {
          assert w != e.w ==> q.workers[w] == p.workers[w];
        }
      }
      forall i | 0 <= i < Min(q.next, q.n) ensures i in q.returned || Running(i) in q.workers {
        if i < Min(p.next, p.n) && i !in q.returned {
          assert Running(i) in p.workers;
          KeepsOthers(p.workers, e.w, q.workers[e.w], Running(i));
        }
      }
    }
  }

  lemma NextValid<R>(p: Pool<R>, e: Event<R>)
    requires Valid(p) && Accounted(p) && Enabled(p, e)
    ensures Valid(Next(p, e)) && Accounted(Next(p, e)) && Next(p, e).n == p.n && |Next(p, e).workers| == |p.workers|
  {
    match e {
      case Take(w) => TakeValid(p, w);
      case Resolve(w, v) => ResolveValid(p, w, v);
      case Reject(w) => RejectValid(p, w);
    }
    NextAccounted(p, e);
  }

  // ----- termination -----

  function Weight(w: Worker): nat { match w case Idle => 1 case Running(_) => 2 case _ => 0 }

  function Weights(ws: seq<Worker>): nat {
    if ws == [] then 0 else Weights(ws[..|ws| - 1]) + Weight(ws[|ws| - 1])
  }

  lemma {:induction false} WeightUpdate(ws: seq<Worker>, w: nat, after: Worker)
    requires w < |ws|
    ensures Weights(ws[w := after]) == Weights(ws) - Weight(ws[w]) + Weight(after)
  {
    var n := |ws| - 1;
    if w == n {
      assert ws[w := after][..n] == ws[..n];
    } else {
      assert ws[w := after][..n] == ws[..n][w := after];
      WeightUpdate(ws[..n], w, after);
    }
  }

  /** How many steps can still be taken. */
  function Fuel<R>(p: Pool<R>): nat { 2 * (p.n - Min(p.next, p.n)) + Weights(p.workers) }

  /** Every step uses up some of what is left, so every interleaving ends. */
  lemma StepsRunOut<R>(p: Pool<R>, e: Event<R>)
    requires Enabled(p, e)
    ensures Fuel(Next(p, e)) < Fuel(p)
  {
    WeightUpdate(p.workers, e.w, Next(p, e).workers[e.w]);
  }

  predicate Stopped<R>(p: Pool<R>) {
    forall w | 0 <= w < |p.workers| :: p.workers[w].Finished? || p.workers[w].Failed?
  }

  /** Nothing blocks: until all workers stopped, one of them can take a step. */
  lemma NoDeadlock<R>(p: Pool<R>, value: R) returns (e: Event<R>)
    requires Valid(p) && !Stopped(p)
    ensures Enabled(p, e)
  {
    var w :| 0 <= w < |p.workers| && !p.workers[w].Finished? && !p.workers[w].Failed?;
    e := if p.workers[w].Idle? then Take(w) else Resolve(w, value);
  }

  // ----- every interleaving -----

  /** The pool after some events, when each of them was possible where it occurred. */
  function RunAll<R>(p: Pool<R>, es: seq<Event<R>>): Option<Pool<R>> {
    if es == [] then Some(p) else
    match RunAll(p, es[..|es| - 1])
    case None => None
    case Some(q) => if Enabled(q, es[|es| - 1]) then Some(Next(q, es[|es| - 1])) else None
  }

  /** `p` is reachable: some interleaving leads to it. */
  ghost predicate Reaches<R>(n: nat, limit: int, es: seq<Event<R>>, p: Pool<R>) { RunAll(Start(n, limit), es) == Some(p) }

  lemma {:induction false} RunValid<R>(n: nat, limit: int, es: seq<Event<R>>, p: Pool<R>)
    requires Reaches(n, limit, es, p)
    ensures Valid(p) && Accounted(p) && p.n == n && |p.workers| == WorkerCount(limit, n)
    ensures Fuel(p) + |es| <= Fuel(Start<R>(n, limit))
  {
    if es == [] {
      StartValid<R>(n, limit);
    } else {
      var q := RunAll(Start(n, limit), es[..|es| - 1]).value;
      RunValid(n, limit, es[..|es| - 1], q);
      NextValid(q, es[|es| - 1]);
      StepsRunOut(q, es[|es| - 1]);
    }
  }

  /** The indices of the calls in flight. */
  function InFlight(ws: seq<Worker>): seq<nat> {
    if ws == [] then []
    else InFlight(ws[..|ws| - 1]) + (if ws[|ws| - 1].Running? then [ws[|ws| - 1].index] else [])
  }

  lemma {:induction false} InFlightBounded(ws: seq<Worker>)
    ensures |InFlight(ws)| <= |ws|
  {
    if ws != [] {
      InFlightBounded(ws[..|ws| - 1]);
    }
  }

  lemma {:induction false} IdleWeights(k: nat)
    ensures Weights(seq(k, i => Idle)) == k
  {
    if k > 0 {
      assert seq(k, i => Idle)[..k - 1] == seq(k - 1, i => Idle);
      IdleWeights(k - 1);
    }
  }

  predicate NoRepeats(s: seq<nat>) { forall i, j | 0 <= i < j < |s| :: s[i] != s[j] }

  /**
   * Under every interleaving: at most max(1, min(limit, n)) calls are in flight, no index is called twice, a run has
   * at most 2n + workers steps, and a result slot is filled only with what the call on that index returned.
   */
  lemma EveryInterleaving<R>(n: nat, limit: int, es: seq<Event<R>>, p: Pool<R>)
    requires Reaches(n, limit, es, p)
    ensures |p.workers| == Max(1, Min(limit, n)) && |InFlight(p.workers)| <= Max(1, Min(limit, n))
    ensures NoRepeats(p.calls) && forall i | i in p.calls :: i < n
    ensures |es| <= 2 * n + Max(1, Min(limit, n))
    ensures |p.results| == n
    ensures forall i | 0 <= i < n && p.results[i].Some? ::
      i in p.calls && i in p.returned && p.results[i].value == p.returned[i]
  {
    RunValid(n, limit, es, p);
    InFlightBounded(p.workers);
    IdleWeights(WorkerCount(limit, n));
    forall i | 0 <= i < n && p.results[i].Some? ensures i in p.calls {
      assert p.calls[i] == i;
    }
  }

  /** When every worker finished, every index was called exactly once and every slot holds what its call returned. */
  lemma CompletedRun<R>(n: nat, limit: int, es: seq<Event<R>>, p: Pool<R>)
    requires Reaches(n, limit, es, p)
    requires forall w | 0 <= w < |p.workers| :: p.workers[w].Finished?
    ensures p.calls == seq(n, i => i)
    ensures |p.results| == n && forall i | 0 <= i < n :: i in p.returned && p.results[i] == Some(p.returned[i])
  {
    RunValid(n, limit, es, p);
    assert p.workers[0].Finished?;
    assert forall i :: Running(i) !in p.workers;
  }
}
