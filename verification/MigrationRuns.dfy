/** Whole migration runs: the pool driving the users' turns under every schedule, and any number of such runs. */
module MigrationRuns {
  import opened Common
  import opened Migration
  import opened WorkerPool

  /** The users one run lists, what goes wrong in each one's turn, and the pool's limit. */
  datatype Batch = Batch(users: seq<LegacyUser>, dryRun: bool, faults: seq<Fault>, limit: int)

  predicate Sized(b: Batch) { |b.faults| == |b.users| }

  /** The writes of the call on index `i`. */
  function Writes(b: Batch, i: nat): seq<Effect>
    requires Sized(b) && i < |b.users|
  {
    EffectsOf(b.users[i], b.dryRun, b.faults[i])
  }

  function Outcome(b: Batch, i: nat): Option<UserResult>
    requires Sized(b) && i < |b.users|
  {
    ResultOf(b.users[i], b.dryRun, b.faults[i])
  }

  /** A step of the pool, or the next write of the call a worker waits for. */
  datatype Step = PoolStep(e: Event<UserResult>) | WriteStep(w: nat)

  /** `done` counts the writes of each call; `events` and `trace` are history. */
  datatype System = System(
    pool: Pool<UserResult>, done: seq<nat>, rows: map<string, Row>, events: seq<Event<UserResult>>, trace: seq<Effect>)

  /** A call resolves to its user's result behind its last write, and rejects when its turn throws. */
  predicate CanStep(b: Batch, pool: Pool<UserResult>, done: seq<nat>, e: Event<UserResult>)
    requires Sized(b) && |done| == |b.users|
  {
    && Enabled(pool, e)
    && match e
       case Take(w) => true
       case Resolve(w, v) =>
         var i := pool.workers[w].index;
         i < |b.users| && done[i] == |Writes(b, i)| && Outcome(b, i) == Some(v)
       case Reject(w) => pool.workers[w].index < |b.users| && Outcome(b, pool.workers[w].index).None?
  }

  predicate CanWrite(b: Batch, pool: Pool<UserResult>, done: seq<nat>, w: nat)
    requires Sized(b) && |done| == |b.users|
  {
    && w < |pool.workers| && pool.workers[w].Running?
    && var i := pool.workers[w].index;
       i < |b.users| && done[i] < |Writes(b, i)|
  }

  predicate Possible(b: Batch, s: System, step: Step)
    requires Sized(b) && |s.done| == |b.users|
  {
    match step case PoolStep(e) => CanStep(b, s.pool, s.done, e) case WriteStep(w) => CanWrite(b, s.pool, s.done, w)
  }

  function After(b: Batch, s: System, step: Step, durable: bool): (t: System)
    requires Sized(b) && |s.done| == |b.users|
    ensures |t.done| == |b.users|
  {
    if !Possible(b, s, step) then s else
    match step
    case PoolStep(e) => s.(pool := Next(s.pool, e), events := s.events + [e])
    case WriteStep(w) =>
      var i := s.pool.workers[w].index;
      var e := Writes(b, i)[s.done[i]];
      s.(done := s.done[i := s.done[i] + 1], rows := Applied(s.rows, e, durable), trace := s.trace + [e])
  }

  /** A run under a schedule; steps that are not possible where they stand are skipped, and it may stop anywhere. */
  function Execute(b: Batch, rows: map<string, Row>, steps: seq<Step>, durable: bool): (s: System)
    requires Sized(b)
    ensures |s.done| == |b.users|
  {
    if steps == [] then System(Start(|b.users|, b.limit), seq(|b.users|, i => 0), rows, [], [])
    else After(b, Execute(b, rows, steps[..|steps| - 1], durable), steps[|steps| - 1], durable)
  }

  // ----- what every schedule keeps -----

  ghost predicate CallsWithin(b: Batch, s: System)
    requires Sized(b) && |s.done| == |b.users|
  {
    forall i | 0 <= i < |b.users| :: s.done[i] <= |Writes(b, i)|
  }

  /** What returned had done all its writes and returned its user's result. */
  ghost predicate ReturnsRight(b: Batch, s: System)
    requires Sized(b) && |s.done| == |b.users|
  {
    forall i | i in s.pool.returned ::
      i < |b.users| && s.done[i] == |Writes(b, i)| && Outcome(b, i) == Some(s.pool.returned[i])
  }

  lemma {:induction false} SchedulesReach(b: Batch, rows: map<string, Row>, steps: seq<Step>, durable: bool)
    requires Sized(b)
    ensures var s := Execute(b, rows, steps, durable);
            && Reaches(|b.users|, b.limit, s.events, s.pool)
            && s.rows == ApplyAll(rows, s.trace, durable)
            && CallsWithin(b, s) && ReturnsRight(b, s)
  {
    if steps != [] {
      var s := Execute(b, rows, steps[..|steps| - 1], durable);
      SchedulesReach(b, rows, steps[..|steps| - 1], durable);
      StepReaches(b, rows, s, steps[|steps| - 1], durable);
    }
  }

  lemma StepReaches(b: Batch, rows: map<string, Row>, s: System, step: Step, durable: bool)
    requires Sized(b) && |s.done| == |b.users|
    requires Reaches(|b.users|, b.limit, s.events, s.pool) && s.rows == ApplyAll(rows, s.trace, durable)
    requires CallsWithin(b, s) && ReturnsRight(b, s)
    ensures var t := After(b, s, step, durable);
            && Reaches(|b.users|, b.limit, t.events, t.pool) && t.rows == ApplyAll(rows, t.trace, durable)
            && CallsWithin(b, t) && ReturnsRight(b, t)
  {
    hide ApplyAll;
    hide Applied;
    hide Start;
    hide Writes;
    hide Outcome;
    if Possible(b, s, step) {
      match step {
        case PoolStep(e) =>
          EventReaches(|b.users|, b.limit, s.events, s.pool, e);
          NextReturned(s.pool, e);
        case WriteStep(w) =>
          RunValid(|b.users|, b.limit, s.events, s.pool);
          RunningNotReturned(s.pool, w);
          ApplyOne(rows, s.trace, Writes(b, s.pool.workers[w].index)[s.done[s.pool.workers[w].index]], durable);
      }
    }
  }

  lemma EventReaches<R>(n: nat, limit: int, es: seq<Event<R>>, p: Pool<R>, e: Event<R>)
    requires Reaches(n, limit, es, p) && Enabled(p, e)
    ensures Reaches(n, limit, es + [e], Next(p, e))
  {
    hide Next;
    hide Enabled;
    assert (es + [e])[..|es|] == es;
  }

  lemma NextReturned<R>(p: Pool<R>, e: Event<R>)
    requires Enabled(p, e)
    ensures Next(p, e).returned == if e.Resolve? then p.returned[p.workers[e.w].index := e.value] else p.returned
  {
  }

  lemma RunningNotReturned<R>(p: Pool<R>, w: nat)
    requires Valid(p) && w < |p.workers| && p.workers[w].Running?
    ensures p.workers[w].index !in p.returned
  {
  }

  // ----- one user's part of a schedule -----

  predicate DistinctIds(users: seq<LegacyUser>) { forall i, j | 0 <= i < j < |users| :: users[i].id != users[j].id }

  /** The users were listed from this store: each shows the status the store holds. */
  predicate Snapshot(users: seq<LegacyUser>, rows: map<string, Row>) {
    forall i | 0 <= i < |users| :: users[i].status == RowOf(rows, users[i].id).status
  }

  lemma WritesCarryId(b: Batch, i: nat, k: nat)
    requires Sized(b) && i < |b.users| && k < |Writes(b, i)|
    ensures Writes(b, i)[k].id == b.users[i].id
  {
  }

  lemma ProjectSnoc(es: seq<Effect>, e: Effect, id: string)
    ensures Project(es + [e], id) == Project(es, id) + (if e.id == id then [e] else [])
  {
    assert (es + [e])[..|es|] == es;
  }

  /** Whatever the schedule: the writes to a user's row are the first writes of that user's own turn, in order. */
  lemma {:induction false} TraceOfUser(b: Batch, rows: map<string, Row>, steps: seq<Step>, durable: bool, i: nat)
    requires Sized(b) && DistinctIds(b.users) && i < |b.users|
    ensures var s := Execute(b, rows, steps, durable);
            s.done[i] <= |Writes(b, i)| && Project(s.trace, b.users[i].id) == Writes(b, i)[..s.done[i]]
  {
    if steps != [] {
      var init, step := steps[..|steps| - 1], steps[|steps| - 1];
      TraceOfUser(b, rows, init, durable, i);
      TraceStep(b, Execute(b, rows, init, durable), step, durable, i);
    }
  }

  lemma TraceStep(b: Batch, s: System, step: Step, durable: bool, i: nat)
    requires Sized(b) && DistinctIds(b.users) && i < |b.users| && |s.done| == |b.users|
    requires s.done[i] <= |Writes(b, i)| && Project(s.trace, b.users[i].id) == Writes(b, i)[..s.done[i]]
    ensures var t := After(b, s, step, durable);
            t.done[i] <= |Writes(b, i)| && Project(t.trace, b.users[i].id) == Writes(b, i)[..t.done[i]]
  {
    hide Project;
    hide Writes;
    hide Applied;
    hide Next;
    hide Enabled;
    hide Outcome;
    if step.WriteStep? && Possible(b, s, step) {
      var j := s.pool.workers[step.w].index;
      var e := Writes(b, j)[s.done[j]];
      WritesCarryId(b, j, s.done[j]);
      ProjectSnoc(s.trace, e, b.users[i].id);
      if j == i {
        assert Writes(b, i)[..s.done[i]] + [e] == Writes(b, i)[..s.done[i] + 1];
      } else {
        assert b.users[j].id != b.users[i].id;
        assert Writes(b, i)[..s.done[i]] + [] == Writes(b, i)[..s.done[i]];
      }
    }
  }

  predicate Lists(users: seq<LegacyUser>, id: string) { exists i :: 0 <= i < |users| && users[i].id == id }

  lemma {:induction false} StrangersUntouched(
    b: Batch, rows: map<string, Row>, steps: seq<Step>, durable: bool, id: string)
    requires Sized(b) && !Lists(b.users, id)
    ensures RowOf(Execute(b, rows, steps, durable).rows, id) == RowOf(rows, id)
  {
    hide Next;
    hide Enabled;
    hide Outcome;
    if steps != [] {
      var init, step := steps[..|steps| - 1], steps[|steps| - 1];
      StrangersUntouched(b, rows, init, durable, id);
      var s := Execute(b, rows, init, durable);
      if step.WriteStep? && Possible(b, s, step) {
        var j := s.pool.workers[step.w].index;
        WritesCarryId(b, j, s.done[j]);
        assert b.users[j].id != id;
      }
    }
  }

  // ----- a schedule is one turn per user -----

  /** How a turn cut behind its first `k` writes looks from outside. */
  function CutFault(u: LegacyUser, dryRun: bool, fault: Fault, k: nat): Fault {
    if k == |EffectsOf(u, dryRun, fault)| then fault
    else if k == 0 then MarkMigratingFails
    else if k == 1 then GrantFails
    else GrantLost
  }

  lemma CutIsPrefix(u: LegacyUser, dryRun: bool, fault: Fault, k: nat)
    requires k <= |EffectsOf(u, dryRun, fault)|
    ensures EffectsOf(u, dryRun, CutFault(u, dryRun, fault, k)) == EffectsOf(u, dryRun, fault)[..k]
  {
    hide CreditsToAtomic;
    var es := EffectsOf(u, dryRun, fault);
    assert es[..|es|] == es;
  }

  /** The turn user `i` had when `k` of their writes were done. */
  function TurnOf(b: Batch, i: nat, k: nat): Turn
    requires Sized(b) && i < |b.users|
  {
    Turn(b.users[i].suiAddress, b.users[i].credit, b.dryRun, CutFault(b.users[i], b.dryRun, b.faults[i], k))
  }

  lemma {:induction false} OwnRowDecides(rows: map<string, Row>, es: seq<Effect>, id: string, durable: bool)
    ensures RowOf(ApplyAll(rows, es, durable), id) == RowOf(ApplyAll(map[id := RowOf(rows, id)], es, durable), id)
  {
    if es != [] {
      OwnRowDecides(rows, es[..|es| - 1], id, durable);
    }
  }

  lemma PrefixIsTurn(b: Batch, rows: map<string, Row>, es: seq<Effect>, durable: bool, i: nat, k: nat)
    requires Sized(b) && i < |b.users| && b.users[i].status == RowOf(rows, b.users[i].id).status
    requires k <= |Writes(b, i)| && Project(es, b.users[i].id) == Writes(b, i)[..k]
    ensures var id := b.users[i].id;
            RowOf(ApplyAll(rows, es, durable), id) == AfterTurn(id, RowOf(rows, id), TurnOf(b, i, k), durable)
  {
    hide ApplyAll;
    hide RowOf;
    hide Project;
    hide EffectsOf;
    hide CutFault;
    var id := b.users[i].id;
    CutIsPrefix(b.users[i], b.dryRun, b.faults[i], k);
    RowNeedsOwnEffects(rows, es, id, durable);
    OwnRowDecides(rows, Writes(b, i)[..k], id, durable);
    assert Listed(id, TurnOf(b, i, k), RowOf(rows, id)) == b.users[i];
  }

  /**
   * Under every schedule of the pool, finished, rejected or cut short by a crash: the run did to a listed user's row what
   * one turn does, and to no other row anything.
   */
  lemma ScheduleIsTurn(b: Batch, rows: map<string, Row>, steps: seq<Step>, durable: bool, i: nat)
    requires Sized(b) && DistinctIds(b.users) && Snapshot(b.users, rows) && i < |b.users|
    ensures var s, id := Execute(b, rows, steps, durable), b.users[i].id;
            && s.done[i] <= |Writes(b, i)|
            && RowOf(s.rows, id) == AfterTurn(id, RowOf(rows, id), TurnOf(b, i, s.done[i]), durable)
  {
    hide Execute;
    hide AfterTurn;
    hide ApplyAll;
    hide Project;
    hide Writes;
    hide TurnOf;
    hide DistinctIds;
    var s := Execute(b, rows, steps, durable);
    SchedulesReach(b, rows, steps, durable);
    TraceOfUser(b, rows, steps, durable, i);
    PrefixIsTurn(b, rows, s.trace, durable, i, s.done[i]);
  }

  predicate Finished(p: Pool<UserResult>) { forall w | 0 <= w < |p.workers| :: p.workers[w].Finished? }

  predicate AllFinished(s: System) { Finished(s.pool) }

  /** When every worker finished, every turn ran as its fault let it and the pool holds every user's result. */
  lemma FinishedRun(b: Batch, rows: map<string, Row>, steps: seq<Step>, durable: bool, i: nat)
    requires Sized(b) && i < |b.users| && AllFinished(Execute(b, rows, steps, durable))
    ensures var s := Execute(b, rows, steps, durable);
            && s.done[i] == |Writes(b, i)| && TurnOf(b, i, s.done[i]).fault == b.faults[i]
            && |s.pool.results| == |b.users| && Outcome(b, i).Some? && s.pool.results[i] == Some(Outcome(b, i).value)
  {
    hide Execute;
    hide EffectsOf;
    hide Outcome;
    hide Reaches;
    var s := Execute(b, rows, steps, durable);
    SchedulesReach(b, rows, steps, durable);
    CompletedRun(|b.users|, b.limit, s.events, s.pool);
  }

  lemma {:induction false} OneWorkerProjects(b: Batch, n: nat, id: string)
    requires Sized(b) && DistinctIds(b.users) && n <= |b.users|
    ensures !Lists(b.users[..n], id) ==> Project(RunEffects(b.users[..n], b.dryRun, b.faults[..n]), id) == []
    ensures forall i | 0 <= i < n && b.users[i].id == id ::
      Project(RunEffects(b.users[..n], b.dryRun, b.faults[..n]), id) == Writes(b, i)
  {
    hide RunEffects;
    hide Project;
    hide Writes;
    EffectsSnoc(b, n);
    if n > 0 {
      OneWorkerProjects(b, n - 1, id);
      ProjectOwn(RunEffects(b.users[..n - 1], b.dryRun, b.faults[..n - 1]), b, n - 1, id);
      ListsSnoc(b.users, n, id);
    } else {
      NothingProjected(id);
    }
  }

  lemma EffectsSnoc(b: Batch, n: nat)
    requires Sized(b) && n <= |b.users|
    ensures RunEffects(b.users[..n], b.dryRun, b.faults[..n])
         == if n == 0 then [] else RunEffects(b.users[..n - 1], b.dryRun, b.faults[..n - 1]) + Writes(b, n - 1)
  {
    hide EffectsOf;
    if n > 0 {
      assert b.users[..n][..n - 1] == b.users[..n - 1] && b.faults[..n][..n - 1] == b.faults[..n - 1];
    }
  }

  lemma NothingProjected(id: string)
    ensures Project([], id) == []
  {
  }

  lemma ListsSnoc(users: seq<LegacyUser>, n: nat, id: string)
    requires 0 < n <= |users|
    ensures Lists(users[..n], id) <==> Lists(users[..n - 1], id) || users[n - 1].id == id
  {
    if Lists(users[..n - 1], id) {
      var i :| 0 <= i < n - 1 && users[..n - 1][i].id == id;
      assert users[..n][i].id == id;
    }
    if users[n - 1].id == id {
      assert users[..n][n - 1].id == id;
    }
    if Lists(users[..n], id) {
      var i :| 0 <= i < n && users[..n][i].id == id;
      assert i < n - 1 ==> users[..n - 1][i].id == id;
    }
  }

  lemma ProjectOwn(before: seq<Effect>, b: Batch, i: nat, id: string)
    requires Sized(b) && i < |b.users|
    ensures Project(before + Writes(b, i), id) == Project(before, id) + (if b.users[i].id == id then Writes(b, i) else [])
  {
    ProjectRun(before, Writes(b, i), b.users[i].id, id, |Writes(b, i)|);
    assert Writes(b, i)[..|Writes(b, i)|] == Writes(b, i);
  }

  lemma {:induction false} ProjectRun(before: seq<Effect>, es: seq<Effect>, owner: string, id: string, k: nat)
    requires k <= |es| && forall j | 0 <= j < |es| :: es[j].id == owner
    ensures Project(before + es[..k], id) == Project(before, id) + (if owner == id then es[..k] else [])
  {
    hide Project;
    if k == 0 {
      assert before + es[..0] == before && Project(before, id) + [] == Project(before, id);
    } else {
      ProjectRun(before, es, owner, id, k - 1);
      assert es[..k] == es[..k - 1] + [es[k - 1]];
      assert before + es[..k] == (before + es[..k - 1]) + [es[k - 1]];
      ProjectSnoc(before + es[..k - 1], es[k - 1], id);
    }
  }

  /** However many workers the pool had: a finished run leaves every row, and reports every result, as one worker does. */
  lemma PoolLikeOneWorker(b: Batch, rows: map<string, Row>, steps: seq<Step>, durable: bool, id: string)
    requires Sized(b) && DistinctIds(b.users) && AllFinished(Execute(b, rows, steps, durable))
    ensures RowOf(Execute(b, rows, steps, durable).rows, id)
         == RowOf(ApplyAll(rows, RunEffects(b.users, b.dryRun, b.faults), durable), id)
    ensures var results := Execute(b, rows, steps, durable).pool.results;
            |results| == |b.users| && forall i | 0 <= i < |b.users| :: results[i] == Outcome(b, i)
  {
    hide Execute;
    hide ApplyAll;
    hide Project;
    hide RunEffects;
    hide EffectsOf;
    hide RowOf;
    hide AllFinished;
    var s := Execute(b, rows, steps, durable);
    forall i | 0 <= i < |b.users|
      ensures s.done[i] == |Writes(b, i)| && |s.pool.results| == |b.users| && s.pool.results[i] == Outcome(b, i)
    {
      FinishedRun(b, rows, steps, durable, i);
    }
    SchedulesReach(b, rows, steps, durable);
    RunValid(|b.users|, b.limit, s.events, s.pool);
    assert b.users[..|b.users|] == b.users && b.faults[..|b.users|] == b.faults;
    OneWorkerProjects(b, |b.users|, id);
    if Lists(b.users, id) {
      var i :| 0 <= i < |b.users| && b.users[i].id == id;
      TraceOfUser(b, rows, steps, durable, i);
      assert Writes(b, i)[..|Writes(b, i)|] == Writes(b, i);
      InterleavingIrrelevant(rows, s.trace, RunEffects(b.users, b.dryRun, b.faults), id, durable);
    } else {
      StrangersUntouched(b, rows, steps, durable, id);
      NoWritesOfOwn(rows, RunEffects(b.users, b.dryRun, b.faults), id, durable);
    }
  }

  lemma NoWritesOfOwn(rows: map<string, Row>, es: seq<Effect>, id: string, durable: bool)
    requires Project(es, id) == []
    ensures RowOf(ApplyAll(rows, es, durable), id) == RowOf(rows, id)
  {
    RowNeedsOwnEffects(rows, es, id, durable);
  }

  /** `results` of a finished pool, without their options. */
  function Unwrapped(results: seq<Option<UserResult>>): seq<UserResult>
    requires forall i | 0 <= i < |results| :: results[i].Some?
  {
    seq(|results|, i requires 0 <= i < |results| => results[i].value)
  }

  /**
   * The run with its pool, under the schedule the steps are: None while some worker has not finished, as when a turn
   * threw. Otherwise it reports every user's result in order, and their totals.
   */
  method RunMigration(b: Batch, backend: Backend, steps: seq<Step>)
    returns (results: Option<seq<UserResult>>, totals: Totals)
    requires Sized(b)
    modifies backend
    ensures backend.rows == Execute(b, old(backend.rows), steps, backend.durable).rows
    ensures results.Some? <==> AllFinished(Execute(b, old(backend.rows), steps, backend.durable))
    ensures results.Some? ==>
      && |results.value| == |b.users|
      && (forall i | 0 <= i < |b.users| :: Outcome(b, i) == Some(results.value[i]))
      && totals == TotalsOf(results.value)
  {
    hide Start;
    hide Next;
    hide Enabled;
    hide EffectsOf;
    hide ResultOf;
    hide Applied;
    hide Execute;
    hide TotalsOf;
    var pool := Start<UserResult>(|b.users|, b.limit);
    var done := seq(|b.users|, i => 0);
    ghost var rows := backend.rows;
    ghost var s := Execute(b, rows, [], backend.durable);
    ExecuteNothing(b, rows, backend.durable);
    for k := 0 to |steps|
      invariant s == Execute(b, rows, steps[..k], backend.durable)
      invariant s.pool == pool && s.done == done && s.rows == backend.rows && |done| == |b.users|
    {
      ExecuteMore(b, rows, steps, k, backend.durable);
      match steps[k] {
        case PoolStep(e) =>
          if CanStep(b, pool, done, e) {
            pool := Next(pool, e);
          }
        case WriteStep(w) =>
          if CanWrite(b, pool, done, w) {
            var i := pool.workers[w].index;
            backend.Do(Writes(b, i)[done[i]]);
            done := done[i := done[i] + 1];
          }
      }
      s := Execute(b, rows, steps[..k + 1], backend.durable);
    }
    assert steps[..|steps|] == steps;
    if !Finished(pool) {
      return None, Totals(0, 0, 0, 0, 0, 0, 0);
    }
    FinishedResults(b, rows, steps, backend.durable);
    var rs := Unwrapped(pool.results);
    results, totals := Some(rs), TotalsOf(rs);
  }

  lemma FinishedResults(b: Batch, rows: map<string, Row>, steps: seq<Step>, durable: bool)
    requires Sized(b) && AllFinished(Execute(b, rows, steps, durable))
    ensures var results := Execute(b, rows, steps, durable).pool.results;
            |results| == |b.users| && forall i | 0 <= i < |b.users| :: results[i] == Outcome(b, i) && Outcome(b, i).Some?
  {
    hide Execute;
    hide Outcome;
    hide Valid;
    hide Reaches;
    hide AllFinished;
    forall i | 0 <= i < |b.users|
      ensures var results := Execute(b, rows, steps, durable).pool.results;
              |results| == |b.users| && results[i] == Outcome(b, i) && Outcome(b, i).Some?
    {
      FinishedRun(b, rows, steps, durable, i);
    }
    ResultSlots(b, rows, steps, durable);
  }

  lemma ExecuteNothing(b: Batch, rows: map<string, Row>, durable: bool)
    requires Sized(b)
    ensures Execute(b, rows, [], durable) == System(Start(|b.users|, b.limit), seq(|b.users|, i => 0), rows, [], [])
  {
  }

  lemma ResultSlots(b: Batch, rows: map<string, Row>, steps: seq<Step>, durable: bool)
    requires Sized(b)
    ensures |Execute(b, rows, steps, durable).pool.results| == |b.users|
  {
    hide Execute;
    SchedulesReach(b, rows, steps, durable);
    RunValid(|b.users|, b.limit, Execute(b, rows, steps, durable).events, Execute(b, rows, steps, durable).pool);
  }

  lemma ExecuteMore(b: Batch, rows: map<string, Row>, steps: seq<Step>, k: nat, durable: bool)
    requires Sized(b) && k < |steps|
    ensures Execute(b, rows, steps[..k + 1], durable) == After(b, Execute(b, rows, steps[..k], durable), steps[k], durable)
  {
    hide After;
    assert steps[..k + 1][..k] == steps[..k];
  }

  /** A user still to be migrated, with an address and an infinite balance. */
  predicate Infinite(u: LegacyUser) {
    u.status != Migrated && u.suiAddress.Some? && u.suiAddress.value != "" && u.credit == PosInf
  }

  predicate NoneFailed(p: Pool<UserResult>) { forall w | 0 <= w < |p.workers| :: !p.workers[w].Failed? }

  lemma {:induction false} NobodyFails(b: Batch, rows: map<string, Row>, steps: seq<Step>, durable: bool)
    requires Sized(b) && forall u | u in b.users :: !Infinite(u)
    ensures NoneFailed(Execute(b, rows, steps, durable).pool)
  {
    hide NoneFailed;
    hide After;
    if steps != [] {
      NobodyFails(b, rows, steps[..|steps| - 1], durable);
      StepFailsNobody(b, Execute(b, rows, steps[..|steps| - 1], durable), steps[|steps| - 1], durable);
    } else {
      NoneFailedYet(|b.users|, b.limit);
    }
  }

  lemma NoneFailedYet(n: nat, limit: int)
    ensures NoneFailed(Start(n, limit))
  {
  }

  lemma StepFailsNobody(b: Batch, s: System, step: Step, durable: bool)
    requires Sized(b) && |s.done| == |b.users| && NoneFailed(s.pool) && forall u | u in b.users :: !Infinite(u)
    ensures NoneFailed(After(b, s, step, durable).pool)
  {
    hide Applied;
    hide EffectsOf;
    hide ResultOf;
    if step.PoolStep? && step.e.Reject? && CanStep(b, s.pool, s.done, step.e) {
      var i := s.pool.workers[step.e.w].index;
      assert b.users[i] in b.users;
      ResultMeans(b.users[i], b.dryRun, b.faults[i]);
      assert false;
    }
  }

  /** When all workers stopped, the run finished exactly when it lists nobody with an infinite balance who is due. */
  lemma FinishesIff(b: Batch, rows: map<string, Row>, steps: seq<Step>, durable: bool)
    requires Sized(b) && Stopped(Execute(b, rows, steps, durable).pool)
    ensures AllFinished(Execute(b, rows, steps, durable)) <==> forall u | u in b.users :: !Infinite(u)
  {
    hide Execute;
    hide ResultOf;
    if forall u | u in b.users :: !Infinite(u) {
      NobodyFails(b, rows, steps, durable);
    } else if AllFinished(Execute(b, rows, steps, durable)) {
      var i :| 0 <= i < |b.users| && Infinite(b.users[i]);
      FinishedRun(b, rows, steps, durable, i);
      ResultMeans(b.users[i], b.dryRun, b.faults[i]);
      assert false;
    }
  }

  /** The run does not get stuck: until all workers stopped, the pool can step or a call can write. */
  lemma SomethingPossible(b: Batch, rows: map<string, Row>, steps: seq<Step>, durable: bool) returns (step: Step)
    requires Sized(b) && !Stopped(Execute(b, rows, steps, durable).pool)
    ensures Possible(b, Execute(b, rows, steps, durable), step)
  {
    hide Execute;
    hide EffectsOf;
    hide ResultOf;
    var s := Execute(b, rows, steps, durable);
    SchedulesReach(b, rows, steps, durable);
    RunValid(|b.users|, b.limit, s.events, s.pool);
    var w: nat :| w < |s.pool.workers| && !s.pool.workers[w].Finished? && !s.pool.workers[w].Failed?;
    if s.pool.workers[w].Idle? {
      step := PoolStep(Take(w));
    } else {
      var i := s.pool.workers[w].index;
      step := if s.done[i] < |Writes(b, i)| then WriteStep(w)
        else if Outcome(b, i).Some? then PoolStep(Resolve(w, Outcome(b, i).value))
        else PoolStep(Reject(w));
    }
  }

  // ----- any number of runs -----

  /** A run and the schedule it took. */
  datatype Plan = Plan(batch: Batch, steps: seq<Step>)

  predicate AllSized(plans: seq<Plan>) { forall k | 0 <= k < |plans| :: Sized(plans[k].batch) }

  function AfterRuns(rows: map<string, Row>, plans: seq<Plan>, durable: bool): map<string, Row>
    requires AllSized(plans)
  {
    if plans == [] then rows else
    var p := plans[|plans| - 1];
    Execute(p.batch, AfterRuns(rows, plans[..|plans| - 1], durable), p.steps, durable).rows
  }

  /** Every run lists each user at most once, and with the status its store holds when the run begins. */
  predicate WellListed(rows: map<string, Row>, plans: seq<Plan>, durable: bool)
    requires AllSized(plans)
  {
    plans == [] ||
    var init, p := plans[..|plans| - 1], plans[|plans| - 1];
    && WellListed(rows, init, durable)
    && DistinctIds(p.batch.users) && Snapshot(p.batch.users, AfterRuns(rows, init, durable))
  }

  /** Where a run lists the user, if it does. */
  function PlaceOf(users: seq<LegacyUser>, id: string): (i: Option<nat>)
    ensures i.Some? <==> Lists(users, id)
    ensures i.Some? ==> i.value < |users| && users[i.value].id == id
  {
    if users == [] then None
    else if users[|users| - 1].id == id then Some(|users| - 1)
    else
      ListsSnoc(users, |users|, id);
      assert users[..|users|] == users;
      PlaceOf(users[..|users| - 1], id)
  }

  /** The turns a user had over the runs that listed them. */
  function TurnsOf(rows: map<string, Row>, plans: seq<Plan>, durable: bool, id: string): seq<Turn>
    requires AllSized(plans)
  {
    if plans == [] then [] else
    var init, p := plans[..|plans| - 1], plans[|plans| - 1];
    var place := PlaceOf(p.batch.users, id);
    TurnsOf(rows, init, durable, id)
      + (if place.None? then []
         else [TurnOf(p.batch, place.value,
                      Execute(p.batch, AfterRuns(rows, init, durable), p.steps, durable).done[place.value])])
  }

  lemma TurnsSnoc(id: string, r: Row, ts: seq<Turn>, t: Turn, durable: bool)
    ensures AfterTurns(id, r, ts + [t], durable) == AfterTurn(id, AfterTurns(id, r, ts, durable), t, durable)
  {
    assert (ts + [t])[..|ts|] == ts;
  }

  /** Any number of runs under any schedules, crashed ones included, are to a user one turn per run that listed them. */
  lemma {:induction false} RunsAreTurns(rows: map<string, Row>, plans: seq<Plan>, durable: bool, id: string)
    requires AllSized(plans) && WellListed(rows, plans, durable)
    ensures RowOf(AfterRuns(rows, plans, durable), id)
         == AfterTurns(id, RowOf(rows, id), TurnsOf(rows, plans, durable, id), durable)
    ensures |TurnsOf(rows, plans, durable, id)| <= |plans|
  {
    hide Execute;
    hide AfterTurn;
    hide RowOf;
    hide TurnOf;
    hide Snapshot;
    hide DistinctIds;
    if plans != [] {
      var init, p := plans[..|plans| - 1], plans[|plans| - 1];
      RunsAreTurns(rows, init, durable, id);
      var before := AfterRuns(rows, init, durable);
      var place := PlaceOf(p.batch.users, id);
      if place.Some? {
        ScheduleIsTurn(p.batch, before, p.steps, durable, place.value);
        TurnsSnoc(
          id, RowOf(rows, id), TurnsOf(rows, init, durable, id),
          TurnOf(p.batch, place.value, Execute(p.batch, before, p.steps, durable).done[place.value]), durable);
      } else {
        StrangersUntouched(p.batch, before, p.steps, durable, id);
        assert TurnsOf(rows, plans, durable, id) == TurnsOf(rows, init, durable, id);
      }
    }
  }

  /**
   * Over any number of migration runs on a durable store, under every schedule and every crash: a user is granted once
   * per turn that completed or lost its answer, at most one turn completes, so grants are at most 1 + lost answers.
   */
  lemma RunsGrantBounded(rows: map<string, Row>, plans: seq<Plan>, id: string)
    requires AllSized(plans) && WellListed(rows, plans, true)
    requires RowOf(rows, id).grants == 0 && RowOf(rows, id).status != Migrated
    ensures var after, r, ts := RowOf(AfterRuns(rows, plans, true), id), RowOf(rows, id), TurnsOf(rows, plans, true, id);
            && after.grants == CountCompleted(id, r, ts, true) + CountLost(id, r, ts, true)
            && CountCompleted(id, r, ts, true) == (if after.status == Migrated then 1 else 0)
            && after.grants <= 1 + CountLost(id, r, ts, true)
  {
    RunsAreTurns(rows, plans, true, id);
    hide *;
    GrantsBounded(id, RowOf(rows, id), TurnsOf(rows, plans, true, id));
  }

  /** A user the store shows as migrated is granted nothing by any later runs. */
  lemma RunsSkipMigrated(rows: map<string, Row>, plans: seq<Plan>, durable: bool, id: string)
    requires AllSized(plans) && WellListed(rows, plans, durable) && RowOf(rows, id).status == Migrated
    ensures RowOf(AfterRuns(rows, plans, durable), id) == RowOf(rows, id)
  {
    hide AfterRuns;
    hide AfterTurns;
    hide TurnsOf;
    hide RowOf;
    RunsAreTurns(rows, plans, durable, id);
    NeverGrantedAgain(id, RowOf(rows, id), TurnsOf(rows, plans, durable, id), durable);
  }

  // ----- a user listed more than once -----

  /** How many listings of the user had their grant written. */
  function ListingGrants(users: seq<LegacyUser>, done: seq<nat>, id: string): nat
    requires |users| == |done|
  {
    if users == [] then 0 else
    var n := |users| - 1;
    ListingGrants(users[..n], done[..n], id) + (if users[n].id == id && done[n] >= 2 then 1 else 0)
  }

  lemma {:induction false} ListingWrites(users: seq<LegacyUser>, done: seq<nat>, i: nat, id: string)
    requires |users| == |done| && i < |users|
    ensures ListingGrants(users, done[i := done[i] + 1], id)
         == ListingGrants(users, done, id) + (if users[i].id == id && done[i] == 1 then 1 else 0)
  {
    var n := |users| - 1;
    if i < n {
      ListingWrites(users[..n], done[..n], i, id);
      assert done[i := done[i] + 1][..n] == done[..n][i := done[..n][i] + 1];
    } else {
      assert done[i := done[i] + 1][..n] == done[..n];
    }
  }

  lemma {:induction false} NothingListed(users: seq<LegacyUser>, id: string)
    ensures ListingGrants(users, seq(|users|, i => 0), id) == 0
  {
    if users != [] {
      var n := |users| - 1;
      NothingListed(users[..n], id);
      assert seq(|users|, i => 0)[..n] == seq(n, i => 0);
    }
  }

  lemma WriteGrants(b: Batch, i: nat, k: nat, r: Row, durable: bool)
    requires Sized(b) && i < |b.users| && k < |Writes(b, i)|
    ensures RowAfter(r, Writes(b, i)[k], durable).grants == r.grants + (if k == 1 then 1 else 0)
  {
  }

  /** Distinct ids or not, under every schedule: a user is granted once per listing whose grant was written. */
  lemma {:induction false} GrantsPerListing(
    b: Batch, rows: map<string, Row>, steps: seq<Step>, durable: bool, id: string)
    requires Sized(b)
    ensures var s := Execute(b, rows, steps, durable);
            RowOf(s.rows, id).grants == RowOf(rows, id).grants + ListingGrants(b.users, s.done, id)
  {
    hide Next;
    hide Enabled;
    hide Outcome;
    hide ListingGrants;
    hide RowAfter;
    if steps == [] {
      NothingListed(b.users, id);
    } else {
      var init, step := steps[..|steps| - 1], steps[|steps| - 1];
      GrantsPerListing(b, rows, init, durable, id);
      var s := Execute(b, rows, init, durable);
      if step.WriteStep? && Possible(b, s, step) {
        var i := s.pool.workers[step.w].index;
        WritesCarryId(b, i, s.done[i]);
        WriteGrants(b, i, s.done[i], RowOf(s.rows, b.users[i].id), durable);
        ListingWrites(b.users, s.done, i, id);
      }
    }
  }

  function EligibleListings(users: seq<LegacyUser>, id: string): nat {
    if users == [] then 0 else
    var n := |users| - 1;
    EligibleListings(users[..n], id) + (if users[n].id == id && Eligible(users[n]) then 1 else 0)
  }

  predicate Clean(b: Batch) { Sized(b) && !b.dryRun && forall f | f in b.faults :: f == NoFault }

  lemma {:induction false} CleanListings(b: Batch, done: seq<nat>, n: nat, id: string)
    requires Clean(b) && n <= |b.users| == |done|
    requires forall i | 0 <= i < |b.users| :: done[i] == |Writes(b, i)| && Outcome(b, i).Some?
    ensures ListingGrants(b.users[..n], done[..n], id) == EligibleListings(b.users[..n], id)
  {
    if n > 0 {
      CleanListings(b, done, n - 1, id);
      assert b.users[..n][..n - 1] == b.users[..n - 1] && done[..n][..n - 1] == done[..n - 1];
      assert b.faults[n - 1] in b.faults;
      CleanWrites(b, n - 1);
    }
  }

  lemma CleanWrites(b: Batch, i: nat)
    requires Sized(b) && i < |b.users| && !b.dryRun && b.faults[i] == NoFault && Outcome(b, i).Some?
    ensures |Writes(b, i)| == if Eligible(b.users[i]) then 3 else 0
  {
  }

  /**
   * A finished run in which nothing failed grants a user once per eligible listing: so it grants each at most once
   * exactly when it lists each eligible user at most once, whatever the schedule.
   */
  lemma CleanRunGrants(b: Batch, rows: map<string, Row>, steps: seq<Step>, durable: bool, id: string)
    requires Clean(b) && AllFinished(Execute(b, rows, steps, durable))
    ensures RowOf(Execute(b, rows, steps, durable).rows, id).grants
         == RowOf(rows, id).grants + EligibleListings(b.users, id)
  {
    hide Execute;
    hide AllFinished;
    hide EffectsOf;
    hide ListingGrants;
    hide EligibleListings;
    var s := Execute(b, rows, steps, durable);
    forall i | 0 <= i < |b.users| ensures s.done[i] == |Writes(b, i)| && Outcome(b, i).Some? {
      FinishedRun(b, rows, steps, durable, i);
    }
    GrantsPerListing(b, rows, steps, durable, id);
    CleanListings(b, s.done, |b.users|, id);
    assert b.users[..|b.users|] == b.users && s.done[..|b.users|] == s.done;
  }

  // ----- what was granted and what was reported -----

  /** By how much the users' granted amounts grew. */
  function GrantedIncrease(users: seq<LegacyUser>, before: map<string, Row>, after: map<string, Row>): int {
    if users == [] then 0 else
    var n := |users| - 1;
    GrantedIncrease(users[..n], before, after) + RowOf(after, users[n].id).granted - RowOf(before, users[n].id).granted
  }

  /** 1,000,000 times the whole credits of the first `n` users whose grant was written. */
  function ReachedAmounts(b: Batch, n: nat): int
    requires Sized(b) && n <= |b.users|
  {
    if n == 0 then 0 else
    ReachedAmounts(b, n - 1) + (if |Writes(b, n - 1)| >= 2 then 1_000_000 * WholeCredits(b.users[n - 1]) else 0)
  }

  lemma WritesGrant(b: Batch, rows: map<string, Row>, i: nat, durable: bool)
    requires Sized(b) && i < |b.users|
    ensures var id := b.users[i].id;
            RowOf(ApplyAll(rows, Writes(b, i), durable), id).granted
            == RowOf(rows, id).granted + (if |Writes(b, i)| >= 2 then 1_000_000 * WholeCredits(b.users[i]) else 0)
  {
    var u := b.users[i];
    var deposit := if CreditsToAtomic(u.credit).Ok? then CreditsToAtomic(u.credit).value else 0;
    var x, y, z := MarkMigrating(u.id), Grant(u.id, deposit), MarkMigrated(u.id);
    ApplyPrefixes(rows, x, y, z, durable);
    var es := Writes(b, i);
    assert es == [] || es == [x] || es == [x, y] || es == [x, y, z];
  }

  lemma FinishedGrant(b: Batch, rows: map<string, Row>, steps: seq<Step>, durable: bool, i: nat)
    requires Sized(b) && DistinctIds(b.users) && AllFinished(Execute(b, rows, steps, durable)) && i < |b.users|
    ensures var id := b.users[i].id;
            RowOf(Execute(b, rows, steps, durable).rows, id).granted
            == RowOf(rows, id).granted + (if |Writes(b, i)| >= 2 then 1_000_000 * WholeCredits(b.users[i]) else 0)
  {
    hide Execute;
    hide AllFinished;
    hide ApplyAll;
    hide Project;
    hide Writes;
    hide WholeCredits;
    hide RowOf;
    hide DistinctIds;
    var s := Execute(b, rows, steps, durable);
    SchedulesReach(b, rows, steps, durable);
    FinishedRun(b, rows, steps, durable, i);
    TraceOfUser(b, rows, steps, durable, i);
    assert Writes(b, i)[..|Writes(b, i)|] == Writes(b, i);
    RowNeedsOwnEffects(rows, s.trace, b.users[i].id, durable);
    WritesGrant(b, rows, i, durable);
  }

  lemma {:induction false} IncreaseIsReached(
    b: Batch, rows: map<string, Row>, steps: seq<Step>, durable: bool, n: nat)
    requires Sized(b) && DistinctIds(b.users) && AllFinished(Execute(b, rows, steps, durable)) && n <= |b.users|
    ensures GrantedIncrease(b.users[..n], rows, Execute(b, rows, steps, durable).rows) == ReachedAmounts(b, n)
  {
    hide Execute;
    hide AllFinished;
    hide Writes;
    hide WholeCredits;
    hide RowOf;
    hide DistinctIds;
    if n > 0 {
      IncreaseIsReached(b, rows, steps, durable, n - 1);
      FinishedGrant(b, rows, steps, durable, n - 1);
      assert b.users[..n][..n - 1] == b.users[..n - 1];
    }
  }

  lemma UnfaultyWrites(b: Batch, i: nat, r: UserResult)
    requires Sized(b) && i < |b.users| && b.faults[i] == NoFault && Outcome(b, i) == Some(r)
    ensures |Writes(b, i)| >= 2 <==> r.status == DidMigrate
    ensures r.status == DidMigrate ==> r.depositAtomic == Some(1_000_000 * WholeCredits(b.users[i]))
  {
  }

  lemma {:induction false} ReachedIsReported(b: Batch, rs: seq<UserResult>, n: nat)
    requires Sized(b) && (forall f | f in b.faults :: f == NoFault) && n <= |b.users| == |rs|
    requires forall i | 0 <= i < |b.users| :: Outcome(b, i) == Some(rs[i])
    ensures ReachedAmounts(b, n) == GrantedTotal(rs[..n])
  {
    hide Writes;
    hide Outcome;
    hide WholeCredits;
    if n > 0 {
      ReachedIsReported(b, rs, n - 1);
      assert b.faults[n - 1] in b.faults;
      UnfaultyWrites(b, n - 1, rs[n - 1]);
      assert rs[..n][..n - 1] == rs[..n - 1];
    }
  }

  /**
   * A finished run under any schedule grants its users, in all, 1,000,000 times the whole credits of those whose grant was
   * written; when nothing failed, that is the total it reports.
   */
  lemma GrantedIsReported(b: Batch, rows: map<string, Row>, steps: seq<Step>, durable: bool, rs: seq<UserResult>)
    requires Sized(b) && DistinctIds(b.users) && AllFinished(Execute(b, rows, steps, durable))
    requires |rs| == |b.users| && forall i | 0 <= i < |b.users| :: Outcome(b, i) == Some(rs[i])
    ensures GrantedIncrease(b.users, rows, Execute(b, rows, steps, durable).rows) == ReachedAmounts(b, |b.users|)
    ensures (forall f | f in b.faults :: f == NoFault) ==>
      GrantedIncrease(b.users, rows, Execute(b, rows, steps, durable).rows) == TotalsOf(rs).totalAtomicGranted
  {
    hide Execute;
    hide AllFinished;
    hide Outcome;
    hide DistinctIds;
    hide ReachedAmounts;
    hide GrantedIncrease;
    hide GrantedTotal;
    IncreaseIsReached(b, rows, steps, durable, |b.users|);
    assert b.users[..|b.users|] == b.users && rs[..|rs|] == rs;
    if forall f | f in b.faults :: f == NoFault {
      ReachedIsReported(b, rs, |b.users|);
    }
  }

  /** One eligible user listed twice is granted twice, durable store or not: the statuses were read before the run. */
  lemma ListedTwiceGrantedTwice(u: LegacyUser, rows: map<string, Row>, durable: bool)
    requires Eligible(u) && u.credit.Finite?
    ensures RowOf(ApplyAll(rows, RunEffects([u, u], false, [NoFault, NoFault]), durable), u.id).grants
         == RowOf(rows, u.id).grants + 2
  {
    var es := EffectsOf(u, false, NoFault);
    var deposit := CreditsToAtomic(u.credit).value;
    assert [u, u][..1] == [u] && [u][..0] == [] && [NoFault, NoFault][..1] == [NoFault] && [NoFault][..0] == [];
    assert RunEffects([u], false, [NoFault]) == [] + es == es;
    assert RunEffects([u, u], false, [NoFault, NoFault]) == es + es;
    ApplyConcat(rows, es, es, durable);
    ApplyPrefixes(rows, MarkMigrating(u.id), Grant(u.id, deposit), MarkMigrated(u.id), durable);
    ApplyPrefixes(ApplyAll(rows, es, durable), MarkMigrating(u.id), Grant(u.id, deposit), MarkMigrated(u.id), durable);
  }
}
