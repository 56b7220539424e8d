/** Crash and replay: over every run, what the indexer has seen is a prefix of the log and the mirror is its fold. */
module Replay {
  import opened Common
  import Decimal
  import opened Json
  import opened Indexer

  /** How far the handler of a recorded event got: to its end, or, when the process died in it, behind some writes. */
  datatype Extent = Whole | Torn(writes: nat)

  /** An indexer against a growing log. `handled` is history: how each event of the recorded prefix was handled. */
  datatype World<R> = World(log: seq<IndexedEvent>, store: Store<R>, handled: seq<Extent>)

  /**
   * The log grows; or a tick is attempted and stops behind `k` dispatches of its page (a crash, a throw, or its end);
   * or the process dies inside the next dispatch, after recording the event and behind `writes` writes of its
   * handler; or the tick runs to its end.
   */
  datatype RunStep = Append(events: seq<IndexedEvent>) | Partial(k: nat) | DiesInside(k: nat, writes: nat) | Full

  function DispatchAt<R>(w: World<R>, h: Handlers<R>, i: nat): World<R>
    requires i < |w.log|
  {
    var e := w.log[i];
    if EventKey(e) in w.store.seen then w
    else w.(store := Dispatched(w.store, h, e), handled := w.handled + [Whole])
  }

  function DispatchRange<R>(w: World<R>, h: Handlers<R>, lo: nat, hi: nat): (r: World<R>)
    requires lo <= hi <= |w.log|
    ensures r.log == w.log && r.store.checkpoint == w.store.checkpoint
  {
    if lo == hi then w else DispatchAt(DispatchRange(w, h, lo, hi - 1), h, hi - 1)
  }

  /** The process dies in the dispatch of event `i`; one already seen had nothing to write. */
  function TearAt<R>(w: World<R>, h: Handlers<R>, i: nat, writes: nat): World<R>
    requires i < |w.log|
  {
    var e := w.log[i];
    if EventKey(e) in w.store.seen then w
    else
      w.(store := Store(w.store.seen + {EventKey(e)}, PartlyApplied(h, w.store.mirror, e, writes), w.store.checkpoint),
         handled := w.handled + [Torn(writes)])
  }

  function Lo<R>(w: World<R>): (i: nat)
    ensures i <= |w.log|
  {
    ResumeIndex(w.log, CursorOf(w.store.checkpoint))
  }

  function Hi<R>(w: World<R>, pageSize: nat): (i: nat)
    ensures Lo(w) <= i <= |w.log|
  {
    Min(Lo(w) + pageSize, |w.log|)
  }

  function Step<R>(w: World<R>, step: RunStep, h: Handlers<R>, pageSize: nat): World<R> {
    match step
    case Append(events) => w.(log := w.log + events)
    case Partial(k) => DispatchRange(w, h, Lo(w), Min(Lo(w) + k, Hi(w, pageSize)))
    case DiesInside(k, writes) =>
      var w1 := DispatchRange(w, h, Lo(w), Min(Lo(w) + k, Hi(w, pageSize)));
      if Lo(w) + k < Hi(w, pageSize) then TearAt(w1, h, Lo(w) + k, writes) else w1
    case Full =>
      var w1 := DispatchRange(w, h, Lo(w), Hi(w, pageSize));
      if Lo(w) == Hi(w, pageSize) then w1
      else w1.(store := w1.store.(checkpoint := CheckpointAt(w.log[Hi(w, pageSize) - 1])))
  }

  function Run<R>(w: World<R>, steps: seq<RunStep>, h: Handlers<R>, pageSize: nat): World<R> {
    if steps == [] then w else Step(Run(w, steps[..|steps| - 1], h, pageSize), steps[|steps| - 1], h, pageSize)
  }

  function Init<R>(log: seq<IndexedEvent>, rest: R): World<R> {
    World(log, Store({}, Mirror(EMPTY_PLATFORM, rest), START), [])
  }

  // ----- the specification -----

  predicate UniqueKeys(log: seq<IndexedEvent>) {
    forall i, j | 0 <= i < j < |log| :: (log[i].txDigest, log[i].eventSeq) != (log[j].txDigest, log[j].eventSeq)
  }

  function Keys(log: seq<IndexedEvent>): set<string> { set e | e in log :: EventKey(e) }

  /** The plain left fold of the handlers over events. */
  function Fold<R>(h: Handlers<R>, m: Mirror<R>, es: seq<IndexedEvent>): Mirror<R> {
    if es == [] then m else Apply(h, Fold(h, m, es[..|es| - 1]), es[|es| - 1]).m
  }

  function AppliedTo<R>(h: Handlers<R>, m: Mirror<R>, e: IndexedEvent, x: Extent): Mirror<R> {
    match x case Whole => Apply(h, m, e).m case Torn(writes) => PartlyApplied(h, m, e, writes)
  }

  /** The fold over the first events of a log, each handled once and as far as `xs` says. */
  function FoldTo<R>(h: Handlers<R>, m: Mirror<R>, log: seq<IndexedEvent>, xs: seq<Extent>): Mirror<R>
    requires |xs| <= |log|
  {
    if xs == [] then m else
    var n := |xs| - 1;
    AppliedTo(h, FoldTo(h, m, log, xs[..n]), log[n], xs[n])
  }

  /** Seen: exactly the keys of a prefix. */
  predicate SeenIsPrefix<R>(w: World<R>) {
    |w.handled| <= |w.log| && w.store.seen == Keys(w.log[..|w.handled|])
  }

  /** Each event of the prefix was handled once, in log order, and nothing else was. */
  ghost predicate MirrorIsFold<R>(w: World<R>, h: Handlers<R>, m0: Mirror<R>) {
    |w.handled| <= |w.log| && w.store.mirror == FoldTo(h, m0, w.log, w.handled)
  }

  /** The cursor names an event of the prefix. */
  predicate CursorInPrefix<R>(w: World<R>) { CursorKnown(w.log, w.store.checkpoint) && Lo(w) <= |w.handled| }

  /** What holds at every point of every run. */
  ghost predicate Consistent<R>(w: World<R>, h: Handlers<R>, m0: Mirror<R>) {
    SeenIsPrefix(w) && MirrorIsFold(w, h, m0) && CursorInPrefix(w)
  }

  predicate CursorKnown(log: seq<IndexedEvent>, c: Checkpoint) {
    CursorOf(c).None? || exists e | e in log :: IsAt(e, CursorOf(c).value)
  }

  lemma KeysOfPrefix(log: seq<IndexedEvent>, n: nat, i: nat)
    requires UniqueKeys(log) && n <= |log| && i < |log|
    ensures EventKey(log[i]) in Keys(log[..n]) <==> i < n
  {
    if i < n {
      assert log[..n][i] in log[..n];
    } else if EventKey(log[i]) in Keys(log[..n]) {
      var e :| e in log[..n] && EventKey(e) == EventKey(log[i]);
      var j :| 0 <= j < n && log[..n][j] == e;
      KeyInjective(e.txDigest, e.eventSeq, log[i].txDigest, log[i].eventSeq);
    }
  }

  lemma KeysExtend(log: seq<IndexedEvent>, n: nat)
    requires n < |log|
    ensures Keys(log[..n + 1]) == Keys(log[..n]) + {EventKey(log[n])}
  {
    assert log[..n + 1] == log[..n] + [log[n]];
  }

  lemma FoldExtends<R>(h: Handlers<R>, m0: Mirror<R>, log: seq<IndexedEvent>, xs: seq<Extent>, x: Extent)
    requires |xs| < |log|
    ensures FoldTo(h, m0, log, xs + [x]) == AppliedTo(h, FoldTo(h, m0, log, xs), log[|xs|], x)
  {
    hide AppliedTo;
    assert (xs + [x])[..|xs|] == xs;
  }

  /** Recording the first event not yet recorded, and handling it as far as `x` says. */
  lemma HandleNext<R>(w: World<R>, w1: World<R>, h: Handlers<R>, m0: Mirror<R>, x: Extent)
    requires Consistent(w, h, m0) && |w.handled| < |w.log|
    requires var e := w.log[|w.handled|];
             && w1.log == w.log && w1.handled == w.handled + [x]
             && w1.store == Store(w.store.seen + {EventKey(e)}, AppliedTo(h, w.store.mirror, e, x), w.store.checkpoint)
    ensures Consistent(w1, h, m0)
  {
    hide AppliedTo;
    hide FoldTo;
    hide Keys;
    hide EventKey;
    hide CursorKnown;
    hide ResumeIndex;
    KeysExtend(w.log, |w.handled|);
    FoldExtends(h, m0, w.log, w.handled, x);
  }

  lemma SeenOrNext<R>(w: World<R>, h: Handlers<R>, m0: Mirror<R>, i: nat)
    requires UniqueKeys(w.log) && Consistent(w, h, m0) && i <= |w.handled| && i < |w.log|
    ensures EventKey(w.log[i]) in w.store.seen <==> i < |w.handled|
  {
    hide FoldTo;
    hide Keys;
    hide EventKey;
    hide UniqueKeys;
    KeysOfPrefix(w.log, |w.handled|, i);
  }

  predicate AllWhole(xs: seq<Extent>) { forall x | x in xs :: x.Whole? }

  /** One dispatch: a recorded event is skipped, the first one not recorded is recorded and handled. */
  lemma DispatchConsistent<R>(w: World<R>, h: Handlers<R>, m0: Mirror<R>, i: nat)
    requires UniqueKeys(w.log) && Consistent(w, h, m0) && i < |w.log| && i <= |w.handled|
    ensures var w1 := DispatchAt(w, h, i);
            && Consistent(w1, h, m0) && |w1.handled| == Max(|w.handled|, i + 1)
            && (AllWhole(w.handled) ==> AllWhole(w1.handled))
  {
    hide Consistent;
    hide UniqueKeys;
    hide EventKey;
    hide Apply;
    SeenOrNext(w, h, m0, i);
    if i == |w.handled| {
      HandleNext(w, DispatchAt(w, h, i), h, m0, Whole);
    }
  }

  lemma TearConsistent<R>(w: World<R>, h: Handlers<R>, m0: Mirror<R>, i: nat, writes: nat)
    requires UniqueKeys(w.log) && Consistent(w, h, m0) && i < |w.log| && i <= |w.handled|
    ensures Consistent(TearAt(w, h, i, writes), h, m0)
  {
    hide Consistent;
    hide UniqueKeys;
    hide EventKey;
    hide PartlyApplied;
    SeenOrNext(w, h, m0, i);
    if i == |w.handled| {
      HandleNext(w, TearAt(w, h, i, writes), h, m0, Torn(writes));
    }
  }

  lemma {:induction false} DispatchRangeConsistent<R>(w: World<R>, h: Handlers<R>, m0: Mirror<R>, lo: nat, hi: nat)
    requires UniqueKeys(w.log) && Consistent(w, h, m0) && lo <= hi <= |w.log| && lo <= |w.handled|
    ensures var w1 := DispatchRange(w, h, lo, hi);
            && Consistent(w1, h, m0) && |w1.handled| == Max(|w.handled|, hi)
            && (AllWhole(w.handled) ==> AllWhole(w1.handled))
  {
    hide Consistent;
    hide DispatchAt;
    hide AllWhole;
    hide UniqueKeys;
    if lo < hi {
      DispatchRangeConsistent(w, h, m0, lo, hi - 1);
      DispatchConsistent(DispatchRange(w, h, lo, hi - 1), h, m0, hi - 1);
    }
  }

  lemma ResumeGrows(log: seq<IndexedEvent>, more: seq<IndexedEvent>, c: Checkpoint)
    requires CursorKnown(log, c)
    ensures CursorKnown(log + more, c)
    ensures ResumeIndex(log + more, CursorOf(c)) == ResumeIndex(log, CursorOf(c))
  {
    if CursorOf(c).Some? {
      var i := FirstAt(log, CursorOf(c).value);
      assert (log + more)[i] == log[i] && log[i] in log + more;
      var j := FirstAt(log + more, CursorOf(c).value);
      assert j <= i;
      assert (log + more)[j] == log[j];
    }
  }

  lemma AppendConsistent<R>(w: World<R>, h: Handlers<R>, m0: Mirror<R>, events: seq<IndexedEvent>)
    requires Consistent(w, h, m0)
    ensures Consistent(w.(log := w.log + events), h, m0)
  {
    hide FoldTo;
    hide CursorKnown;
    hide ResumeIndex;
    ResumeGrows(w.log, events, w.store.checkpoint);
    assert (w.log + events)[..|w.handled|] == w.log[..|w.handled|];
    FoldOfGrown(h, m0, w.log, events, w.handled);
  }

  lemma {:induction false} FoldOfGrown<R>(
    h: Handlers<R>, m: Mirror<R>, log: seq<IndexedEvent>, more: seq<IndexedEvent>, xs: seq<Extent>)
    requires |xs| <= |log|
    ensures FoldTo(h, m, log + more, xs) == FoldTo(h, m, log, xs)
  {
    hide AppliedTo;
    if xs != [] {
      FoldOfGrown(h, m, log, more, xs[..|xs| - 1]);
    }
  }

  lemma CursorBehind<R>(w: World<R>, h: Handlers<R>, m0: Mirror<R>)
    requires Consistent(w, h, m0)
    ensures Lo(w) <= |w.handled|
  {
  }

  lemma CheckpointConsistent<R>(w: World<R>, h: Handlers<R>, m0: Mirror<R>, hi: nat)
    requires Consistent(w, h, m0) && 0 < hi <= |w.handled|
    ensures Consistent(w.(store := w.store.(checkpoint := CheckpointAt(w.log[hi - 1]))), h, m0)
  {
    var e := w.log[hi - 1];
    assert IsAt(e, CursorAt(e)) && e in w.log;
    var i := FirstAt(w.log, CursorAt(e));
    assert i <= hi - 1;
  }

  lemma DiesMidPage<R>(w: World<R>, h: Handlers<R>, m0: Mirror<R>, k: nat, writes: nat)
    requires UniqueKeys(w.log) && Consistent(w, h, m0) && Lo(w) + k < |w.log|
    ensures Consistent(TearAt(DispatchRange(w, h, Lo(w), Lo(w) + k), h, Lo(w) + k, writes), h, m0)
  {
    hide *;
    CursorBehind(w, h, m0);
    var lo := Lo(w);
    DispatchRangeConsistent(w, h, m0, lo, lo + k);
    var w1 := DispatchRange(w, h, lo, lo + k);
    MaxBounds(|w.handled|, lo + k);
    TearConsistent(w1, h, m0, lo + k, writes);
  }

  lemma MaxBounds(a: int, b: int)
    ensures a <= Max(a, b) && b <= Max(a, b)
  {
  }

  lemma DiesConsistent<R>(w: World<R>, h: Handlers<R>, m0: Mirror<R>, pageSize: nat, k: nat, writes: nat)
    requires UniqueKeys(w.log) && Consistent(w, h, m0)
    ensures Consistent(Step(w, DiesInside(k, writes), h, pageSize), h, m0)
  {
    hide Consistent;
    hide DispatchRange;
    hide TearAt;
    hide UniqueKeys;
    hide Lo;
    CursorBehind(w, h, m0);
    if Lo(w) + k < Hi(w, pageSize) {
      DiesMidPage(w, h, m0, k, writes);
    } else {
      DispatchRangeConsistent(w, h, m0, Lo(w), Hi(w, pageSize));
    }
  }

  lemma FullConsistent<R>(w: World<R>, h: Handlers<R>, m0: Mirror<R>, pageSize: nat)
    requires UniqueKeys(w.log) && Consistent(w, h, m0)
    ensures Consistent(Step(w, Full, h, pageSize), h, m0)
    ensures AllWhole(w.handled) ==> AllWhole(Step(w, Full, h, pageSize).handled)
  {
    hide Consistent;
    hide DispatchRange;
    hide UniqueKeys;
    hide Lo;
    hide Hi;
    CursorBehind(w, h, m0);
    var hi := Hi(w, pageSize);
    DispatchRangeConsistent(w, h, m0, Lo(w), hi);
    if Lo(w) < hi {
      CheckpointConsistent(DispatchRange(w, h, Lo(w), hi), h, m0, hi);
    }
  }

  lemma StepConsistent<R>(w: World<R>, step: RunStep, h: Handlers<R>, m0: Mirror<R>, pageSize: nat)
    requires UniqueKeys(w.log) && Consistent(w, h, m0)
    ensures Consistent(Step(w, step, h, pageSize), h, m0)
    ensures AllWhole(w.handled) && !step.DiesInside? ==> AllWhole(Step(w, step, h, pageSize).handled)
  {
    hide Consistent;
    hide DispatchRange;
    hide UniqueKeys;
    hide Lo;
    hide Hi;
    CursorBehind(w, h, m0);
    match step {
      case Append(events) => AppendConsistent(w, h, m0, events);
      case Partial(k) => DispatchRangeConsistent(w, h, m0, Lo(w), Min(Lo(w) + k, Hi(w, pageSize)));
      case DiesInside(k, writes) => DiesConsistent(w, h, m0, pageSize, k, writes);
      case Full => FullConsistent(w, h, m0, pageSize);
    }
  }

  lemma LogGrows<R>(w: World<R>, step: RunStep, h: Handlers<R>, pageSize: nat)
    ensures w.log <= Step(w, step, h, pageSize).log
  {
  }

  lemma UniquePrefix(log: seq<IndexedEvent>, longer: seq<IndexedEvent>)
    requires UniqueKeys(longer) && log <= longer
    ensures UniqueKeys(log)
  {
  }

  /**
   * Over every run, crashes anywhere included: the seen set is the key set of a prefix of the log, and the mirror is
   * the fold of the handlers over that prefix, each event once and in log order, one a crash hit as far as it got.
   */
  lemma {:induction false} RunConsistent<R>(log: seq<IndexedEvent>, rest: R, steps: seq<RunStep>, h: Handlers<R>, pageSize: nat)
    requires UniqueKeys(Run(Init(log, rest), steps, h, pageSize).log)
    ensures Consistent(Run(Init(log, rest), steps, h, pageSize), h, Mirror(EMPTY_PLATFORM, rest))
    ensures (forall s | s in steps :: !s.DiesInside?) ==> AllWhole(Run(Init(log, rest), steps, h, pageSize).handled)
  {
    if steps != [] {
      var init := steps[..|steps| - 1];
      var w := Run(Init(log, rest), init, h, pageSize);
      LogGrows(w, steps[|steps| - 1], h, pageSize);
      UniquePrefix(w.log, Run(Init(log, rest), steps, h, pageSize).log);
      RunConsistent(log, rest, init, h, pageSize);
      StepConsistent(w, steps[|steps| - 1], h, Mirror(EMPTY_PLATFORM, rest), pageSize);
    }
  }

  lemma {:induction false} FoldOfWhole<R>(h: Handlers<R>, m: Mirror<R>, log: seq<IndexedEvent>, xs: seq<Extent>)
    requires |xs| <= |log| && AllWhole(xs)
    ensures FoldTo(h, m, log, xs) == Fold(h, m, log[..|xs|])
  {
    hide Apply;
    if xs != [] {
      var n := |xs| - 1;
      FoldOfWhole(h, m, log, xs[..n]);
      assert log[..n + 1][..n] == log[..n];
      assert xs[n] in xs;
    }
  }

  /** With no crash inside a dispatch, the mirror is the fold over the whole seen prefix: replay is exact. */
  lemma ReplayIsFold<R>(log: seq<IndexedEvent>, rest: R, steps: seq<RunStep>, h: Handlers<R>, pageSize: nat)
    requires UniqueKeys(Run(Init(log, rest), steps, h, pageSize).log)
    requires forall s | s in steps :: !s.DiesInside?
    ensures var w := Run(Init(log, rest), steps, h, pageSize);
            var n := |w.handled|;
            && n <= |w.log|
            && w.store.seen == Keys(w.log[..n])
            && w.store.mirror == Fold(h, Mirror(EMPTY_PLATFORM, rest), w.log[..n])
  {
    hide Run;
    hide Fold;
    hide FoldTo;
    hide AllWhole;
    RunConsistent(log, rest, steps, h, pageSize);
    var w := Run(Init(log, rest), steps, h, pageSize);
    FoldOfWhole(h, Mirror(EMPTY_PLATFORM, rest), w.log, w.handled);
  }

  // ----- the imperative tick is one of these steps -----

  lemma DispatchAtStore<R>(w: World<R>, h: Handlers<R>, i: nat)
    requires i < |w.log|
    ensures DispatchAt(w, h, i).store == Dispatched(w.store, h, w.log[i])
  {
  }

  lemma SliceSnoc<T>(s: seq<T>, lo: nat, hi: nat)
    requires lo < hi <= |s|
    ensures var t := s[lo..hi]; t[..|t| - 1] == s[lo..hi - 1] && t[|t| - 1] == s[hi - 1]
  {
  }

  lemma {:induction false} RangeIsDispatchAll<R>(w: World<R>, h: Handlers<R>, lo: nat, hi: nat)
    requires lo <= hi <= |w.log|
    ensures DispatchRange(w, h, lo, hi).store == DispatchAll(w.store, h, w.log[lo..hi])
  {
    hide DispatchAt;
    hide Dispatched;
    if lo < hi {
      var es := w.log[lo..hi];
      RangeIsDispatchAll(w, h, lo, hi - 1);
      DispatchAtStore(DispatchRange(w, h, lo, hi - 1), h, hi - 1);
      SliceSnoc(w.log, lo, hi);
    }
  }

  /** A tick that throws leaves the store as a partial step does. */
  lemma ThrowIsPartial<R>(w: World<R>, h: Handlers<R>, pageSize: nat, reached: nat)
    requires reached <= |PageOf(w.log, w.store.checkpoint, pageSize)|
    ensures Step(w, Partial(reached), h, pageSize).store
         == DispatchAll(w.store, h, PageOf(w.log, w.store.checkpoint, pageSize)[..reached])
  {
    hide DispatchRange;
    hide DispatchAll;
    RangeIsDispatchAll(w, h, Lo(w), Lo(w) + reached);
    assert PageOf(w.log, w.store.checkpoint, pageSize)[..reached] == w.log[Lo(w)..Lo(w) + reached];
  }

  lemma EndIsFull<R>(w: World<R>, h: Handlers<R>, pageSize: nat)
    ensures var page := PageOf(w.log, w.store.checkpoint, pageSize);
            Step(w, Full, h, pageSize).store == Advanced(DispatchAll(w.store, h, page), page)
  {
    var page := PageOf(w.log, w.store.checkpoint, pageSize);
    assert page == w.log[Lo(w)..Hi(w, pageSize)];
    RangeIsDispatchAll(w, h, Lo(w), Hi(w, pageSize));
    assert page != [] ==> page[|page| - 1] == w.log[Hi(w, pageSize) - 1];
  }

  /** Whatever `Tick` does to the store, throwing or not, is a step of the runs above. */
  lemma TickIsStep<R>(
    w: World<R>, h: Handlers<R>, pageSize: nat, down: set<string>, r: TickResult, reached: nat, after: Store<R>)
    requires TickEffect(w.store, h, PageOf(w.log, w.store.checkpoint, pageSize), down, r, reached, after)
    ensures after == Step(w, if r.TickOk? then Full else Partial(reached), h, pageSize).store
  {
    if r.TickOk? {
      EndIsFull(w, h, pageSize);
    } else {
      ThrowIsPartial(w, h, pageSize, reached);
    }
  }

  // ----- progress -----

  lemma FullTickAdvances<R>(w: World<R>, h: Handlers<R>, m0: Mirror<R>, pageSize: nat)
    requires UniqueKeys(w.log) && Consistent(w, h, m0)
    ensures Lo(Step(w, Full, h, pageSize)) == Hi(w, pageSize)
  {
    var hi := Hi(w, pageSize);
    if Lo(w) < hi {
      var e := w.log[hi - 1];
      assert IsAt(e, CursorAt(e)) && e in w.log;
      var i := FirstAt(w.log, CursorAt(e));
      assert i <= hi - 1 && (i < hi - 1 ==> false);
    }
  }

  /** How a tick ended: it completed, or dispatching event `reached - 1` of its page threw. */
  datatype TickEnd = TickEnd(completed: bool, reached: nat, down: set<string>)

  function StepOf(t: TickEnd): RunStep { if t.completed then Full else Partial(t.reached) }

  /** A tick that throws does so at the dispatch it stopped behind. */
  ghost predicate EndFits<R>(w: World<R>, h: Handlers<R>, pageSize: nat, t: TickEnd) {
    var page := PageOf(w.log, w.store.checkpoint, pageSize);
    t.completed
    || (0 < t.reached <= |page|
        && DispatchThrows(DispatchAll(w.store, h, page[..t.reached - 1]), h, page[t.reached - 1], t.down))
  }

  /** Every way `Tick` can end fits. */
  lemma TickEndFits<R>(
    w: World<R>, h: Handlers<R>, pageSize: nat, down: set<string>, r: TickResult, reached: nat, after: Store<R>)
    requires TickEffect(w.store, h, PageOf(w.log, w.store.checkpoint, pageSize), down, r, reached, after)
    ensures EndFits(w, h, pageSize, TickEnd(r.TickOk?, reached, down))
    ensures after == Step(w, StepOf(TickEnd(r.TickOk?, reached, down)), h, pageSize).store
  {
    hide DispatchThrows;
    hide DispatchAll;
    hide Step;
    TickIsStep(w, h, pageSize, down, r, reached, after);
  }

  function AfterTicks<R>(w: World<R>, ticks: seq<TickEnd>, h: Handlers<R>, pageSize: nat): World<R> {
    if ticks == [] then w
    else Step(AfterTicks(w, ticks[..|ticks| - 1], h, pageSize), StepOf(ticks[|ticks| - 1]), h, pageSize)
  }

  ghost predicate TicksFit<R>(w: World<R>, ticks: seq<TickEnd>, h: Handlers<R>, pageSize: nat) {
    ticks == [] ||
    (TicksFit(w, ticks[..|ticks| - 1], h, pageSize)
     && EndFits(AfterTicks(w, ticks[..|ticks| - 1], h, pageSize), h, pageSize, ticks[|ticks| - 1]))
  }

  function Throws(ticks: seq<TickEnd>): nat {
    if ticks == [] then 0 else Throws(ticks[..|ticks| - 1]) + (if ticks[|ticks| - 1].completed then 0 else 1)
  }

  lemma {:induction false} ThrowsBounded(ticks: seq<TickEnd>)
    ensures Throws(ticks) <= |ticks|
  {
    if ticks != [] {
      ThrowsBounded(ticks[..|ticks| - 1]);
    }
  }

  /** The event a dispatch throws at was not recorded before, and the cursor stays. */
  lemma ThrowRecords<R>(w: World<R>, h: Handlers<R>, m0: Mirror<R>, pageSize: nat, t: TickEnd)
    requires UniqueKeys(w.log) && Consistent(w, h, m0) && EndFits(w, h, pageSize, t) && !t.completed
    ensures var w1 := Step(w, StepOf(t), h, pageSize);
            |w1.handled| > |w.handled| && Lo(w1) == Lo(w)
  {
    hide Consistent;
    hide UniqueKeys;
    hide DispatchRange;
    hide DispatchAll;
    hide Apply;
    hide EventKey;
    hide ResumeIndex;
    hide CursorOf;
    CursorBehind(w, h, m0);
    var page, i := PageOf(w.log, w.store.checkpoint, pageSize), Lo(w) + t.reached - 1;
    var before := DispatchRange(w, h, Lo(w), i);
    DispatchRangeConsistent(w, h, m0, Lo(w), i);
    RangeIsDispatchAll(w, h, Lo(w), i);
    assert page[..t.reached - 1] == w.log[Lo(w)..i] && page[t.reached - 1] == w.log[i];
    SeenOrNext(before, h, m0, i);
    DispatchRangeConsistent(w, h, m0, Lo(w), i + 1);
  }

  /** One tick, thrown or completed. */
  lemma TickMoves<R>(w: World<R>, h: Handlers<R>, m0: Mirror<R>, pageSize: nat, t: TickEnd)
    requires UniqueKeys(w.log) && Consistent(w, h, m0) && EndFits(w, h, pageSize, t)
    ensures var w1 := Step(w, StepOf(t), h, pageSize);
            && w1.log == w.log && Consistent(w1, h, m0)
            && |w1.handled| >= |w.handled| + (if t.completed then 0 else 1)
            && Lo(w1) == (if t.completed then Hi(w, pageSize) else Lo(w))
            && |w1.handled| <= |w1.log|
  {
    hide Consistent;
    hide UniqueKeys;
    hide EndFits;
    hide DispatchRange;
    hide Lo;
    hide Hi;
    StepConsistent(w, StepOf(t), h, m0, pageSize);
    HandledWithin(Step(w, StepOf(t), h, pageSize), h, m0);
    if t.completed {
      FullTickAdvances(w, h, m0, pageSize);
      FullRecords(w, h, m0, pageSize);
    } else {
      ThrowRecords(w, h, m0, pageSize, t);
    }
  }

  lemma HandledWithin<R>(w: World<R>, h: Handlers<R>, m0: Mirror<R>)
    requires Consistent(w, h, m0)
    ensures |w.handled| <= |w.log| && Lo(w) <= |w.handled|
  {
  }

  lemma FullRecords<R>(w: World<R>, h: Handlers<R>, m0: Mirror<R>, pageSize: nat)
    requires UniqueKeys(w.log) && Consistent(w, h, m0)
    ensures |Step(w, Full, h, pageSize).handled| >= |w.handled|
  {
    hide Consistent;
    hide UniqueKeys;
    hide DispatchRange;
    hide Lo;
    hide Hi;
    CursorBehind(w, h, m0);
    DispatchRangeConsistent(w, h, m0, Lo(w), Hi(w, pageSize));
  }

  /** Over any ticks, thrown ones included: each throw records a new event, and each completed tick moves a page. */
  lemma {:induction false} TicksMove<R>(w: World<R>, ticks: seq<TickEnd>, h: Handlers<R>, m0: Mirror<R>, pageSize: nat)
    requires UniqueKeys(w.log) && Consistent(w, h, m0) && TicksFit(w, ticks, h, pageSize)
    ensures Throws(ticks) <= |ticks|
    ensures var t := AfterTicks(w, ticks, h, pageSize);
            && t.log == w.log && Consistent(t, h, m0)
            && Lo(t) == Min(Lo(w) + (|ticks| - Throws(ticks)) * pageSize, |w.log|)
            && |w.handled| + Throws(ticks) <= |t.handled| <= |w.log|
  {
    hide Consistent;
    hide UniqueKeys;
    hide EndFits;
    hide Step;
    hide Lo;
    HandledWithin(w, h, m0);
    ThrowsBounded(ticks);
    if ticks != [] {
      var init := ticks[..|ticks| - 1];
      TicksMove(w, init, h, m0, pageSize);
      TickMoves(AfterTicks(w, init, h, pageSize), h, m0, pageSize, ticks[|ticks| - 1]);
      OneMorePage(|init| - Throws(init), pageSize);
    } else {
      assert Lo(w) <= |w.log|;
    }
  }

  lemma OneMorePage(n: int, pageSize: nat)
    ensures (n + 1) * pageSize == n * pageSize + pageSize
  {
  }

  lemma EnoughPages(n: nat, k: nat, pageSize: nat)
    requires k <= n
    ensures k * pageSize <= n * pageSize
  {
  }

  /**
   * Whatever handlers and publishes throw: no more ticks throw than there are events still to record, and once `k` pages
   * reach the end, that many ticks and `k` more have drained the log.
   */
  lemma TicksDrain<R>(w: World<R>, ticks: seq<TickEnd>, h: Handlers<R>, m0: Mirror<R>, pageSize: nat, k: nat)
    requires UniqueKeys(w.log) && Consistent(w, h, m0) && TicksFit(w, ticks, h, pageSize)
    requires Lo(w) + k * pageSize >= |w.log|
    ensures Throws(ticks) <= |w.log| - |w.handled|
    ensures |ticks| >= |w.log| - |w.handled| + k ==>
      && Lo(AfterTicks(w, ticks, h, pageSize)) == |w.log|
      && |AfterTicks(w, ticks, h, pageSize).handled| == |w.log|
  {
    hide Consistent;
    hide UniqueKeys;
    hide TicksFit;
    hide AfterTicks;
    hide Lo;
    TicksMove(w, ticks, h, m0, pageSize);
    HandledWithin(AfterTicks(w, ticks, h, pageSize), h, m0);
    if |ticks| >= |w.log| - |w.handled| + k {
      EnoughPages(|ticks| - Throws(ticks), k, pageSize);
    }
  }

  // ----- what is published -----

  /** The position an event has in the log, when dispatching it publishes it. */
  function PublishedAt<R>(w: World<R>, h: Handlers<R>, i: nat, down: set<string>): seq<nat>
    requires i < |w.log|
  {
    if Published(w.store, h, w.log[i], down) == [] then [] else [i]
  }

  function PublishedRange<R>(w: World<R>, h: Handlers<R>, lo: nat, hi: nat, down: set<string>): seq<nat>
    requires lo <= hi <= |w.log|
  {
    if lo == hi then []
    else PublishedRange(w, h, lo, hi - 1, down) + PublishedAt(DispatchRange(w, h, lo, hi - 1), h, hi - 1, down)
  }

  predicate InLog(log: seq<IndexedEvent>, positions: seq<nat>) {
    forall i | 0 <= i < |positions| :: positions[i] < |log|
  }

  function PayloadsAt(log: seq<IndexedEvent>, positions: seq<nat>): seq<PubsubPayload>
    requires InLog(log, positions)
  {
    seq(|positions|, i requires 0 <= i < |positions| => PayloadOf(log[positions[i]]))
  }

  lemma PayloadsConcat(log: seq<IndexedEvent>, a: seq<nat>, b: seq<nat>)
    requires InLog(log, a) && InLog(log, b)
    ensures InLog(log, a + b) && PayloadsAt(log, a + b) == PayloadsAt(log, a) + PayloadsAt(log, b)
  {
    hide PayloadOf;
  }

  lemma AtPublishes<R>(w: World<R>, h: Handlers<R>, i: nat, down: set<string>)
    requires i < |w.log|
    ensures InLog(w.log, PublishedAt(w, h, i, down))
    ensures Published(w.store, h, w.log[i], down) == PayloadsAt(w.log, PublishedAt(w, h, i, down))
  {
    hide PayloadOf;
    hide DispatchThrows;
    hide EventKey;
  }

  /** The positions are those of the payloads a tick publishes. */
  lemma {:induction false} RangePublishes<R>(w: World<R>, h: Handlers<R>, lo: nat, hi: nat, down: set<string>)
    requires lo <= hi <= |w.log|
    ensures InLog(w.log, PublishedRange(w, h, lo, hi, down))
    ensures PublishedAll(w.store, h, w.log[lo..hi], down) == PayloadsAt(w.log, PublishedRange(w, h, lo, hi, down))
  {
    hide DispatchAll;
    hide DispatchRange;
    hide Published;
    hide PublishedAt;
    hide PayloadsAt;
    hide InLog;
    if lo < hi {
      var es := w.log[lo..hi];
      RangePublishes(w, h, lo, hi - 1, down);
      RangeIsDispatchAll(w, h, lo, hi - 1);
      SliceSnoc(w.log, lo, hi);
      var w1 := DispatchRange(w, h, lo, hi - 1);
      AtPublishes(w1, h, hi - 1, down);
      PayloadsConcat(w.log, PublishedRange(w, h, lo, hi - 1, down), PublishedAt(w1, h, hi - 1, down));
    } else {
      NoPayloads(w.log);
    }
  }

  lemma NoPayloads(log: seq<IndexedEvent>)
    ensures InLog(log, []) && PayloadsAt(log, []) == []
  {
  }

  /** What a step publishes; a process that dies inside a dispatch has not published its event. */
  function StepPublishes<R>(w: World<R>, step: RunStep, h: Handlers<R>, pageSize: nat, down: set<string>): seq<nat> {
    match step
    case Append(_) => []
    case Partial(k) => PublishedRange(w, h, Lo(w), Min(Lo(w) + k, Hi(w, pageSize)), down)
    case DiesInside(k, _) => PublishedRange(w, h, Lo(w), Min(Lo(w) + k, Hi(w, pageSize)), down)
    case Full => PublishedRange(w, h, Lo(w), Hi(w, pageSize), down)
  }

  /** What a run publishes; which publishes fail may differ from step to step. */
  function RunPublishes<R>(
    w: World<R>, steps: seq<RunStep>, downs: seq<set<string>>, h: Handlers<R>, pageSize: nat): seq<nat>
    requires |downs| == |steps|
  {
    if steps == [] then [] else
    var n := |steps| - 1;
    RunPublishes(w, steps[..n], downs[..n], h, pageSize)
      + StepPublishes(Run(w, steps[..n], h, pageSize), steps[n], h, pageSize, downs[n])
  }

  /** Positions in rising order, none below `lo` and all below `hi`. */
  predicate Rising(positions: seq<nat>, lo: nat, hi: nat) {
    && (forall i, j | 0 <= i < j < |positions| :: positions[i] < positions[j])
    && (forall i | 0 <= i < |positions| :: lo <= positions[i] < hi)
  }

  lemma RisingConcat(a: seq<nat>, b: seq<nat>, lo: nat, mid: nat, hi: nat)
    requires Rising(a, lo, mid) && Rising(b, mid, hi) && lo <= mid <= hi
    ensures Rising(a + b, lo, hi)
  {
  }

  lemma PublishesNew<R>(w: World<R>, h: Handlers<R>, m0: Mirror<R>, i: nat, down: set<string>)
    requires UniqueKeys(w.log) && Consistent(w, h, m0) && i < |w.log| && i <= |w.handled|
    ensures Rising(PublishedAt(w, h, i, down), |w.handled|, Max(|w.handled|, i + 1))
  {
    hide Consistent;
    hide UniqueKeys;
    hide EventKey;
    hide DispatchThrows;
    SeenOrNext(w, h, m0, i);
  }

  lemma {:induction false} RangePublishesOnce<R>(
    w: World<R>, h: Handlers<R>, m0: Mirror<R>, lo: nat, hi: nat, down: set<string>)
    requires UniqueKeys(w.log) && Consistent(w, h, m0) && lo <= hi <= |w.log| && lo <= |w.handled|
    ensures Rising(PublishedRange(w, h, lo, hi, down), |w.handled|, Max(|w.handled|, hi))
  {
    hide Consistent;
    hide UniqueKeys;
    hide DispatchRange;
    hide PublishedAt;
    hide Rising;
    if lo < hi {
      RangePublishesOnce(w, h, m0, lo, hi - 1, down);
      DispatchRangeConsistent(w, h, m0, lo, hi - 1);
      var w1 := DispatchRange(w, h, lo, hi - 1);
      PublishesNew(w1, h, m0, hi - 1, down);
      RisingConcat(
        PublishedRange(w, h, lo, hi - 1, down), PublishedAt(w1, h, hi - 1, down),
        |w.handled|, |w1.handled|, Max(|w.handled|, hi));
    } else {
      NothingRises(|w.handled|, Max(|w.handled|, hi));
    }
  }

  lemma NothingRises(lo: nat, hi: nat)
    ensures Rising([], lo, hi)
  {
  }

  lemma RisingWider(a: seq<nat>, lo: nat, hi: nat, more: nat)
    requires Rising(a, lo, hi) && hi <= more
    ensures Rising(a, lo, more)
  {
  }

  /** A step publishes only events it recorded itself. */
  lemma StepPublishesOnce<R>(
    w: World<R>, step: RunStep, h: Handlers<R>, m0: Mirror<R>, pageSize: nat, down: set<string>)
    requires UniqueKeys(w.log) && Consistent(w, h, m0)
    ensures |w.handled| <= |Step(w, step, h, pageSize).handled|
    ensures Rising(StepPublishes(w, step, h, pageSize, down), |w.handled|, |Step(w, step, h, pageSize).handled|)
  {
    hide Consistent;
    hide UniqueKeys;
    hide DispatchRange;
    hide PublishedRange;
    hide Rising;
    hide Lo;
    hide EventKey;
    hide PartlyApplied;
    CursorBehind(w, h, m0);
    match step {
      case Append(_) => NothingRises(|w.handled|, |w.handled|);
      case Partial(k) =>
        RangePublishesOnce(w, h, m0, Lo(w), Min(Lo(w) + k, Hi(w, pageSize)), down);
        DispatchRangeConsistent(w, h, m0, Lo(w), Min(Lo(w) + k, Hi(w, pageSize)));
      case DiesInside(k, writes) =>
        var hi := Min(Lo(w) + k, Hi(w, pageSize));
        RangePublishesOnce(w, h, m0, Lo(w), hi, down);
        DispatchRangeConsistent(w, h, m0, Lo(w), hi);
        RisingWider(
          PublishedRange(w, h, Lo(w), hi, down), |w.handled|, Max(|w.handled|, hi),
          |Step(w, step, h, pageSize).handled|);
      case Full =>
        RangePublishesOnce(w, h, m0, Lo(w), Hi(w, pageSize), down);
        DispatchRangeConsistent(w, h, m0, Lo(w), Hi(w, pageSize));
    }
  }

  /** Over every run, crashes and failing publishes included: each event is published at most once, and in log order. */
  lemma {:induction false} RunPublishesOnce<R>(
    log: seq<IndexedEvent>, rest: R, steps: seq<RunStep>, downs: seq<set<string>>, h: Handlers<R>, pageSize: nat)
    requires |downs| == |steps| && UniqueKeys(Run(Init(log, rest), steps, h, pageSize).log)
    ensures var w := Run(Init(log, rest), steps, h, pageSize);
            Rising(RunPublishes(Init(log, rest), steps, downs, h, pageSize), 0, |w.handled|)
  {
    hide Step;
    hide StepPublishes;
    hide UniqueKeys;
    hide Consistent;
    hide Rising;
    if steps == [] {
      NothingRises(0, 0);
    } else {
      var n := |steps| - 1;
      var w := Run(Init(log, rest), steps[..n], h, pageSize);
      LogGrows(w, steps[n], h, pageSize);
      UniquePrefix(w.log, Run(Init(log, rest), steps, h, pageSize).log);
      RunPublishesOnce(log, rest, steps[..n], downs[..n], h, pageSize);
      RunConsistent(log, rest, steps[..n], h, pageSize);
      StepPublishesOnce(w, steps[n], h, Mirror(EMPTY_PLATFORM, rest), pageSize, downs[n]);
      RisingConcat(
        RunPublishes(Init(log, rest), steps[..n], downs[..n], h, pageSize),
        StepPublishes(w, steps[n], h, pageSize, downs[n]), 0, |w.handled|, |Step(w, steps[n], h, pageSize).handled|);
    }
  }

  // ----- which events are published -----

  /** Event `i` is of a live type, and its handler ran to its end on the mirror the events before it left. */
  ghost predicate Publishable<R>(w: World<R>, h: Handlers<R>, m0: Mirror<R>, i: nat)
    requires i < |w.handled| <= |w.log|
  {
    && w.log[i].eventType in {CallSettled, ServerPublished, VaultClaimed, InsurancePaid, BundleActivated}
    && w.handled[i].Whole? && Apply(h, FoldTo(h, m0, w.log, w.handled[..i]), w.log[i]).Completed?
  }

  /** The later world has the history of the earlier one. */
  predicate Continues<R>(w: World<R>, w1: World<R>) {
    w.log <= w1.log && w.handled <= w1.handled && |w.handled| <= |w.log| && |w1.handled| <= |w1.log|
  }

  lemma PublishableStays<R>(w: World<R>, w1: World<R>, h: Handlers<R>, m0: Mirror<R>, i: nat)
    requires Continues(w, w1) && i < |w.handled|
    ensures w1.log[i] == w.log[i] && (Publishable(w, h, m0, i) <==> Publishable(w1, h, m0, i))
  {
    hide Apply;
    hide FoldTo;
    var more := w1.log[|w.log|..];
    assert w1.log == w.log + more;
    assert w1.handled[..i] == w.handled[..i];
    FoldOfGrown(h, m0, w.log, more, w.handled[..i]);
  }

  /** Of the events recorded since there were `from`, exactly the publishable ones whose publish goes through. */
  ghost predicate PublishesFrom<R>(
    w: World<R>, h: Handlers<R>, m0: Mirror<R>, from: nat, positions: seq<nat>, down: set<string>)
  {
    && |w.handled| <= |w.log|
    && forall i: nat | from <= i < |w.handled| ::
         i in positions <==> Publishable(w, h, m0, i) && EventKey(w.log[i]) !in down
  }

  lemma AtPublishesExactly<R>(w: World<R>, h: Handlers<R>, m0: Mirror<R>, i: nat, down: set<string>)
    requires UniqueKeys(w.log) && Consistent(w, h, m0) && i < |w.log| && i <= |w.handled|
    ensures Continues(w, DispatchAt(w, h, i))
    ensures PublishesFrom(DispatchAt(w, h, i), h, m0, |w.handled|, PublishedAt(w, h, i, down), down)
  {
    hide UniqueKeys;
    hide EventKey;
    hide Apply;
    hide FoldTo;
    hide Published;
    hide DispatchThrows;
    hide CursorInPrefix;
    SeenOrNext(w, h, m0, i);
    PublishedIff(w.store, h, w.log[i], down);
    if i == |w.handled| {
      assert (w.handled + [Whole])[..i] == w.handled;
    }
  }

  lemma ContinuesOn<R>(w: World<R>, w1: World<R>, w2: World<R>)
    requires Continues(w, w1) && Continues(w1, w2)
    ensures Continues(w, w2)
  {
  }

  /** What was published in two stretches. */
  lemma PublishesOn<R>(
    w1: World<R>, w2: World<R>, h: Handlers<R>, m0: Mirror<R>, from: nat, a: seq<nat>, b: seq<nat>, down: set<string>)
    requires Continues(w1, w2) && PublishesFrom(w1, h, m0, from, a, down)
    requires PublishesFrom(w2, h, m0, |w1.handled|, b, down)
    requires Rising(a, from, |w1.handled|) && Rising(b, |w1.handled|, |w2.handled|)
    ensures PublishesFrom(w2, h, m0, from, a + b, down)
  {
    hide Publishable;
    hide EventKey;
    forall i: nat | from <= i < |w2.handled|
      ensures i in a + b <==> Publishable(w2, h, m0, i) && EventKey(w2.log[i]) !in down
    {
      if i < |w1.handled| {
        PublishableStays(w1, w2, h, m0, i);
        assert i !in b;
      } else {
        assert i !in a;
      }
    }
  }

  lemma {:induction false} RangePublishesExactly<R>(
    w: World<R>, h: Handlers<R>, m0: Mirror<R>, lo: nat, hi: nat, down: set<string>)
    requires UniqueKeys(w.log) && Consistent(w, h, m0) && lo <= hi <= |w.log| && lo <= |w.handled|
    ensures Continues(w, DispatchRange(w, h, lo, hi))
    ensures PublishesFrom(DispatchRange(w, h, lo, hi), h, m0, |w.handled|, PublishedRange(w, h, lo, hi, down), down)
  {
    hide Consistent;
    hide UniqueKeys;
    hide DispatchAt;
    hide PublishedAt;
    hide Rising;
    hide PublishesFrom;
    hide Continues;
    HandledWithin(w, h, m0);
    if lo < hi {
      var w1 := DispatchRange(w, h, lo, hi - 1);
      RangePublishesExactly(w, h, m0, lo, hi - 1, down);
      RangePublishesOnce(w, h, m0, lo, hi - 1, down);
      DispatchRangeConsistent(w, h, m0, lo, hi - 1);
      AtPublishesExactly(w1, h, m0, hi - 1, down);
      PublishesNew(w1, h, m0, hi - 1, down);
      DispatchConsistent(w1, h, m0, hi - 1);
      var w2 := DispatchAt(w1, h, hi - 1);
      ContinuesOn(w, w1, w2);
      PublishesOn(
        w1, w2, h, m0, |w.handled|, PublishedRange(w, h, lo, hi - 1, down), PublishedAt(w1, h, hi - 1, down), down);
    } else {
      NothingNew(w, w, h, m0, down);
    }
  }

  lemma NothingNew<R>(w: World<R>, w1: World<R>, h: Handlers<R>, m0: Mirror<R>, down: set<string>)
    requires w.log <= w1.log && w1.handled == w.handled && |w.handled| <= |w.log|
    ensures Continues(w, w1) && PublishesFrom(w1, h, m0, |w.handled|, [], down)
  {
  }

  /** An event whose dispatch the process died in is not published. */
  lemma TornNotPublished<R>(w: World<R>, h: Handlers<R>, m0: Mirror<R>, i: nat, writes: nat, down: set<string>)
    requires UniqueKeys(w.log) && Consistent(w, h, m0) && i < |w.log| && i <= |w.handled|
    ensures Continues(w, TearAt(w, h, i, writes))
    ensures PublishesFrom(TearAt(w, h, i, writes), h, m0, |w.handled|, [], down)
  {
    hide Consistent;
    hide UniqueKeys;
    hide EventKey;
    hide Apply;
    hide FoldTo;
    hide PartlyApplied;
    HandledWithin(w, h, m0);
    SeenOrNext(w, h, m0, i);
  }

  lemma DiesPublishes<R>(
    w: World<R>, h: Handlers<R>, m0: Mirror<R>, k: nat, writes: nat, down: set<string>)
    requires UniqueKeys(w.log) && Consistent(w, h, m0) && Lo(w) + k < |w.log|
    ensures var w2 := TearAt(DispatchRange(w, h, Lo(w), Lo(w) + k), h, Lo(w) + k, writes);
            && Continues(w, w2)
            && PublishesFrom(w2, h, m0, |w.handled|, PublishedRange(w, h, Lo(w), Lo(w) + k, down), down)
  {
    hide *;
    CursorBehind(w, h, m0);
    var lo := Lo(w);
    var w1, a := DispatchRange(w, h, lo, lo + k), PublishedRange(w, h, lo, lo + k, down);
    DispatchRangeConsistent(w, h, m0, lo, lo + k);
    MaxBounds(|w.handled|, lo + k);
    RangePublishesExactly(w, h, m0, lo, lo + k, down);
    RangePublishesOnce(w, h, m0, lo, lo + k, down);
    TornNotPublished(w1, h, m0, lo + k, writes, down);
    var w2 := TearAt(w1, h, lo + k, writes);
    ContinuesOn(w, w1, w2);
    NothingRises(|w1.handled|, |w2.handled|);
    PublishesOn(w1, w2, h, m0, |w.handled|, a, [], down);
    assert a + [] == a;
  }

  lemma StepPublishesExactly<R>(
    w: World<R>, step: RunStep, h: Handlers<R>, m0: Mirror<R>, pageSize: nat, down: set<string>)
    requires UniqueKeys(w.log) && Consistent(w, h, m0)
    ensures Continues(w, Step(w, step, h, pageSize))
    ensures PublishesFrom(
      Step(w, step, h, pageSize), h, m0, |w.handled|, StepPublishes(w, step, h, pageSize, down), down)
  {
    hide Consistent;
    hide UniqueKeys;
    hide DispatchRange;
    hide PublishedRange;
    hide PublishesFrom;
    hide Continues;
    hide TearAt;
    hide Lo;
    CursorBehind(w, h, m0);
    HandledWithin(w, h, m0);
    match step {
      case Append(events) => NothingNew(w, w.(log := w.log + events), h, m0, down);
      case Partial(k) => RangePublishesExactly(w, h, m0, Lo(w), Min(Lo(w) + k, Hi(w, pageSize)), down);
      case DiesInside(k, writes) =>
        if Lo(w) + k < Hi(w, pageSize) {
          DiesPublishes(w, h, m0, k, writes, down);
        } else {
          RangePublishesExactly(w, h, m0, Lo(w), Hi(w, pageSize), down);
        }
      case Full =>
        var w1 := DispatchRange(w, h, Lo(w), Hi(w, pageSize));
        RangePublishesExactly(w, h, m0, Lo(w), Hi(w, pageSize), down);
        SameHistory(w, w1, Step(w, Full, h, pageSize), h, m0, PublishedRange(w, h, Lo(w), Hi(w, pageSize), down), down);
    }
  }

  /** A checkpoint changes nothing about what was published. */
  lemma SameHistory<R>(
    w: World<R>, w1: World<R>, w2: World<R>, h: Handlers<R>, m0: Mirror<R>, positions: seq<nat>, down: set<string>)
    requires Continues(w, w1) && w2.log == w1.log && w2.handled == w1.handled
    requires PublishesFrom(w1, h, m0, |w.handled|, positions, down)
    ensures Continues(w, w2) && PublishesFrom(w2, h, m0, |w.handled|, positions, down)
  {
    hide Apply;
    hide FoldTo;
    hide EventKey;
  }

  predicate UpSometimes(downs: seq<set<string>>, key: string) { exists d :: d in downs && key !in d }

  predicate NeverDown(downs: seq<set<string>>, key: string) { forall d | d in downs :: key !in d }

  /** Of the recorded events, all publishable ones whose publish never fails, and only such as do not always fail. */
  ghost predicate PublishesAll<R>(
    w: World<R>, h: Handlers<R>, m0: Mirror<R>, positions: seq<nat>, downs: seq<set<string>>)
  {
    && |w.handled| <= |w.log|
    && forall i: nat | i < |w.handled| ::
      && (i in positions ==> Publishable(w, h, m0, i) && UpSometimes(downs, EventKey(w.log[i])))
      && (Publishable(w, h, m0, i) && NeverDown(downs, EventKey(w.log[i])) ==> i in positions)
  }

  lemma PublishesMore<R>(
    w: World<R>, w1: World<R>, h: Handlers<R>, m0: Mirror<R>, a: seq<nat>, b: seq<nat>,
    downs: seq<set<string>>, down: set<string>)
    requires Continues(w, w1) && PublishesAll(w, h, m0, a, downs)
    requires PublishesFrom(w1, h, m0, |w.handled|, b, down)
    requires Rising(a, 0, |w.handled|) && Rising(b, |w.handled|, |w1.handled|)
    ensures PublishesAll(w1, h, m0, a + b, downs + [down])
  {
    hide Publishable;
    hide EventKey;
    forall i: nat | i < |w1.handled|
      ensures i in a + b ==> Publishable(w1, h, m0, i) && UpSometimes(downs + [down], EventKey(w1.log[i]))
      ensures Publishable(w1, h, m0, i) && NeverDown(downs + [down], EventKey(w1.log[i])) ==> i in a + b
    {
      var key := EventKey(w1.log[i]);
      MoreDowns(downs, down, key);
      if i < |w.handled| {
        PublishableStays(w, w1, h, m0, i);
        assert i !in b;
      } else {
        assert i !in a;
      }
    }
  }

  lemma MoreDowns(downs: seq<set<string>>, down: set<string>, key: string)
    ensures UpSometimes(downs + [down], key) <==> UpSometimes(downs, key) || key !in down
    ensures NeverDown(downs + [down], key) <==> NeverDown(downs, key) && key !in down
  {
    assert forall d :: d in downs + [down] <==> d in downs || d == down;
    if key !in down {
      assert down in downs + [down];
    }
    if UpSometimes(downs, key) {
      var d :| d in downs && key !in d;
      assert d in downs + [down];
    }
  }

  /**
   * Over every run, crashes included: among the recorded events exactly those of a live type whose handler ran to its
   * end are published, when their publish never fails; none is whose publish always fails.
   */
  lemma {:induction false} RunPublishesExactly<R>(
    log: seq<IndexedEvent>, rest: R, steps: seq<RunStep>, downs: seq<set<string>>, h: Handlers<R>, pageSize: nat)
    requires |downs| == |steps| && UniqueKeys(Run(Init(log, rest), steps, h, pageSize).log)
    ensures PublishesAll(
      Run(Init(log, rest), steps, h, pageSize), h, Mirror(EMPTY_PLATFORM, rest),
      RunPublishes(Init(log, rest), steps, downs, h, pageSize), downs)
  {
    hide Step;
    hide StepPublishes;
    hide UniqueKeys;
    hide Consistent;
    hide Rising;
    hide PublishesFrom;
    if steps != [] {
      hide PublishesAll;
      var n := |steps| - 1;
      var w := Run(Init(log, rest), steps[..n], h, pageSize);
      LogGrows(w, steps[n], h, pageSize);
      UniquePrefix(w.log, Run(Init(log, rest), steps, h, pageSize).log);
      RunPublishesExactly(log, rest, steps[..n], downs[..n], h, pageSize);
      RunPublishesOnce(log, rest, steps[..n], downs[..n], h, pageSize);
      RunConsistent(log, rest, steps[..n], h, pageSize);
      var m0 := Mirror(EMPTY_PLATFORM, rest);
      StepPublishesOnce(w, steps[n], h, m0, pageSize, downs[n]);
      StepPublishesExactly(w, steps[n], h, m0, pageSize, downs[n]);
      PublishesMore(
        w, Step(w, steps[n], h, pageSize), h, m0, RunPublishes(Init(log, rest), steps[..n], downs[..n], h, pageSize),
        StepPublishes(w, steps[n], h, pageSize, downs[n]), downs[..n], downs[n]);
      assert downs == downs[..n] + [downs[n]];
    }
  }

  // ----- the loop around the ticks -----

  lemma RunSnoc<R>(w: World<R>, steps: seq<RunStep>, step: RunStep, h: Handlers<R>, pageSize: nat)
    ensures Run(w, steps + [step], h, pageSize) == Step(Run(w, steps, h, pageSize), step, h, pageSize)
  {
    hide Step;
    assert (steps + [step])[..|steps|] == steps;
  }

  /** The same publishes fail throughout. */
  function Downs(down: set<string>, n: nat): seq<set<string>> { seq(n, i => down) }

  lemma PublishesSnoc<R>(
    w: World<R>, steps: seq<RunStep>, step: RunStep, down: set<string>, h: Handlers<R>, pageSize: nat)
    ensures RunPublishes(w, steps + [step], Downs(down, |steps| + 1), h, pageSize)
         == RunPublishes(w, steps, Downs(down, |steps|), h, pageSize)
              + StepPublishes(Run(w, steps, h, pageSize), step, h, pageSize, down)
  {
    hide Run;
    hide StepPublishes;
    var n := |steps|;
    assert (steps + [step])[..n] == steps && Downs(down, n + 1)[..n] == Downs(down, n);
  }

  lemma PayloadsGrow(log: seq<IndexedEvent>, more: seq<IndexedEvent>, positions: seq<nat>)
    requires InLog(log, positions)
    ensures InLog(log + more, positions) && PayloadsAt(log + more, positions) == PayloadsAt(log, positions)
  {
    hide PayloadOf;
  }

  lemma TakeOfSlice(log: seq<IndexedEvent>, lo: nat, hi: nat, k: nat)
    requires lo + k <= hi <= |log|
    ensures log[lo..hi][..k] == log[lo..lo + k]
  {
  }

  /** What a tick publishes is what its step does. */
  lemma TickPublishes<R>(w: World<R>, h: Handlers<R>, pageSize: nat, down: set<string>, t: TickEnd)
    requires t.reached <= |PageOf(w.log, w.store.checkpoint, pageSize)|
    requires t.completed ==> t.reached == |PageOf(w.log, w.store.checkpoint, pageSize)|
    ensures var positions := StepPublishes(w, StepOf(t), h, pageSize, down);
            && InLog(w.log, positions)
            && PublishedAll(w.store, h, PageOf(w.log, w.store.checkpoint, pageSize)[..t.reached], down)
               == PayloadsAt(w.log, positions)
  {
    hide PublishedAll;
    hide PublishedRange;
    hide PayloadsAt;
    hide InLog;
    hide ResumeIndex;
    hide CursorOf;
    RangePublishes(w, h, Lo(w), Lo(w) + t.reached, down);
    TakeOfSlice(w.log, Lo(w), Hi(w, pageSize), t.reached);
  }

  /** The store, the log and what was published are those of a run of the steps. */
  ghost predicate Follows<R>(
    store: Store<R>, log: seq<IndexedEvent>, published: seq<PubsubPayload>,
    w0: World<R>, steps: seq<RunStep>, down: set<string>, h: Handlers<R>, pageSize: nat)
  {
    var w, positions := Run(w0, steps, h, pageSize), RunPublishes(w0, steps, Downs(down, |steps|), h, pageSize);
    w.store == store && w.log == log && InLog(log, positions) && published == PayloadsAt(log, positions)
  }

  lemma FollowsNothing<R>(w0: World<R>, down: set<string>, h: Handlers<R>, pageSize: nat)
    ensures Follows(w0.store, w0.log, [], w0, [], down, h, pageSize)
  {
  }

  lemma FollowsAppend<R>(
    store: Store<R>, log: seq<IndexedEvent>, published: seq<PubsubPayload>,
    w0: World<R>, steps: seq<RunStep>, down: set<string>, h: Handlers<R>, pageSize: nat, more: seq<IndexedEvent>)
    requires Follows(store, log, published, w0, steps, down, h, pageSize)
    ensures Follows(store, log + more, published, w0, steps + [Append(more)], down, h, pageSize)
  {
    hide Run;
    hide RunPublishes;
    hide PayloadsAt;
    hide InLog;
    RunSnoc(w0, steps, Append(more), h, pageSize);
    PublishesSnoc(w0, steps, Append(more), down, h, pageSize);
    var positions := RunPublishes(w0, steps, Downs(down, |steps|), h, pageSize);
    assert positions + [] == positions;
    PayloadsGrow(log, more, positions);
  }

  lemma FollowsTick<R>(
    store: Store<R>, log: seq<IndexedEvent>, published: seq<PubsubPayload>,
    w0: World<R>, steps: seq<RunStep>, down: set<string>, h: Handlers<R>, pageSize: nat,
    r: TickResult, reached: nat, after: Store<R>)
    requires Follows(store, log, published, w0, steps, down, h, pageSize)
    requires TickEffect(store, h, PageOf(log, store.checkpoint, pageSize), down, r, reached, after)
    ensures reached <= |PageOf(log, store.checkpoint, pageSize)|
    ensures var more := PublishedAll(store, h, PageOf(log, store.checkpoint, pageSize)[..reached], down);
            var step := StepOf(TickEnd(r.TickOk?, reached, down));
            Follows(after, log, published + more, w0, steps + [step], down, h, pageSize)
  {
    hide Run;
    hide RunPublishes;
    hide StepPublishes;
    hide PublishedAll;
    hide PayloadsAt;
    hide InLog;
    hide PageOf;
    hide DispatchAll;
    hide DispatchThrows;
    var t := TickEnd(r.TickOk?, reached, down);
    var w := Run(w0, steps, h, pageSize);
    TickEndFits(w, h, pageSize, down, r, reached, after);
    TickPublishes(w, h, pageSize, down, t);
    RunSnoc(w0, steps, StepOf(t), h, pageSize);
    PublishesSnoc(w0, steps, StepOf(t), down, h, pageSize);
    PayloadsConcat(
      log, RunPublishes(w0, steps, Downs(down, |steps|), h, pageSize), StepPublishes(w, StepOf(t), h, pageSize, down));
  }

  /**
   * Of the first `n` events, exactly those of a live type are published whose handler runs to its end on the fold of
   * the events before them, and whose publish does not fail.
   */
  ghost predicate PublishesLive<R>(
    h: Handlers<R>, m0: Mirror<R>, log: seq<IndexedEvent>, n: nat, positions: seq<nat>, down: set<string>)
    requires n <= |log|
  {
    forall i: nat | i < n ::
      i in positions <==>
        && log[i].eventType in {CallSettled, ServerPublished, VaultClaimed, InsurancePaid, BundleActivated}
        && Apply(h, Fold(h, m0, log[..i]), log[i]).Completed?
        && EventKey(log[i]) !in down
  }

  /**
   * The indexer's loop: events arrive, a tick is made, and one that throws is left behind. With unique keys, at the end
   * the mirror is the fold over a prefix of all that arrived, and what was published are exactly the live events of that
   * prefix that were handled and whose publish goes through, in log order and each once.
   */
  method RunLoop<R>(
    storage: InMemoryStorage<R>, pubsub: Pubsub, source: InMemoryEventSource, pageSize: nat,
    arrivals: seq<seq<IndexedEvent>>)
    returns (ghost steps: seq<RunStep>, ghost positions: seq<nat>)
    requires storage.State() == Store({}, Mirror(EMPTY_PLATFORM, storage.rest), START) && pubsub.published == []
    modifies storage, pubsub, source
    ensures InLog(source.buffer, positions) && pubsub.published == PayloadsAt(source.buffer, positions)
    ensures UniqueKeys(source.buffer) ==>
      exists n: nat :: n <= |source.buffer|
        && storage.seenEvents == Keys(source.buffer[..n])
        && Mirror(storage.platform, storage.rest)
           == Fold(storage.handlers, Mirror(EMPTY_PLATFORM, old(storage.rest)), source.buffer[..n])
        && Rising(positions, 0, n)
        && PublishesLive(storage.handlers, Mirror(EMPTY_PLATFORM, old(storage.rest)), source.buffer, n, positions, pubsub.down)
  {
    ghost var w0 := Init(source.buffer, storage.rest);
    ghost var down, h := pubsub.down, storage.handlers;
    steps := [];
    FollowsNothing(w0, down, h, pageSize);
    for k := 0 to |arrivals|
      invariant Follows(storage.State(), source.buffer, pubsub.published, w0, steps, down, h, pageSize)
      invariant forall s | s in steps :: !s.DiesInside?
    {
      hide *;
      FollowsAppend(storage.State(), source.buffer, pubsub.published, w0, steps, down, h, pageSize, arrivals[k]);
      source.Push(arrivals[k]);
      steps := steps + [Append(arrivals[k])];
      ghost var before, published := storage.State(), pubsub.published;
      var r;
      ghost var reached;
      r, reached := Tick(storage, pubsub, source, pageSize);
      FollowsTick(before, source.buffer, published, w0, steps, down, h, pageSize, r, reached, storage.State());
      steps := steps + [StepOf(TickEnd(r.TickOk?, reached, down))];
      TicksDoNotDie(TickEnd(r.TickOk?, reached, down));
    }
    positions := RunPublishes(w0, steps, Downs(down, |steps|), h, pageSize);
    if UniqueKeys(source.buffer) {
      FollowsIsFold(storage.State(), source.buffer, pubsub.published, old(source.buffer), old(storage.rest), steps, down, h, pageSize);
    }
  }

  lemma TicksDoNotDie(t: TickEnd)
    ensures !StepOf(t).DiesInside?
  {
  }

  lemma FollowsIsFold<R>(
    store: Store<R>, log: seq<IndexedEvent>, published: seq<PubsubPayload>, log0: seq<IndexedEvent>, rest: R,
    steps: seq<RunStep>, down: set<string>, h: Handlers<R>, pageSize: nat)
    requires Follows(store, log, published, Init(log0, rest), steps, down, h, pageSize)
    requires UniqueKeys(log) && forall s | s in steps :: !s.DiesInside?
    ensures var n := |Run(Init(log0, rest), steps, h, pageSize).handled|;
            && n <= |log| && store.seen == Keys(log[..n])
            && store.mirror == Fold(h, Mirror(EMPTY_PLATFORM, rest), log[..n])
            && Rising(RunPublishes(Init(log0, rest), steps, Downs(down, |steps|), h, pageSize), 0, n)
            && PublishesLive(
                 h, Mirror(EMPTY_PLATFORM, rest), log, n,
                 RunPublishes(Init(log0, rest), steps, Downs(down, |steps|), h, pageSize), down)
  {
    hide Run;
    hide RunPublishes;
    hide Rising;
    hide Fold;
    hide Keys;
    hide UniqueKeys;
    hide PublishesLive;
    hide PublishesAll;
    hide AllWhole;
    ReplayIsFold(log0, rest, steps, h, pageSize);
    RunConsistent(log0, rest, steps, h, pageSize);
    RunPublishesOnce(log0, rest, steps, Downs(down, |steps|), h, pageSize);
    RunPublishesExactly(log0, rest, steps, Downs(down, |steps|), h, pageSize);
    NothingRun(log0, rest, h, pageSize);
    LiveOfAll(
      Run(Init(log0, rest), steps, h, pageSize), h, Mirror(EMPTY_PLATFORM, rest),
      RunPublishes(Init(log0, rest), steps, Downs(down, |steps|), h, pageSize), down, |steps|);
  }

  lemma NothingRun<R>(log: seq<IndexedEvent>, rest: R, h: Handlers<R>, pageSize: nat)
    ensures Run(Init(log, rest), [], h, pageSize).handled == []
  {
  }

  lemma LiveOfAll<R>(
    w: World<R>, h: Handlers<R>, m0: Mirror<R>, positions: seq<nat>, down: set<string>, n: nat)
    requires AllWhole(w.handled) && PublishesAll(w, h, m0, positions, Downs(down, n))
    requires n == 0 ==> w.handled == []
    ensures PublishesLive(h, m0, w.log, |w.handled|, positions, down)
  {
    hide Apply;
    hide Fold;
    hide FoldTo;
    hide EventKey;
    forall i: nat | i < |w.handled|
      ensures FoldTo(h, m0, w.log, w.handled[..i]) == Fold(h, m0, w.log[..i]) && w.handled[i].Whole?
    {
      assert w.handled[i] in w.handled;
      FoldOfWhole(h, m0, w.log, w.handled[..i]);
    }
    forall i: nat | i < |w.handled|
      ensures UpSometimes(Downs(down, n), EventKey(w.log[i])) <==> EventKey(w.log[i]) !in down
      ensures NeverDown(Downs(down, n), EventKey(w.log[i])) <==> EventKey(w.log[i]) !in down
    {
      assert Downs(down, n)[0] == down;
    }
  }

  // ----- conservation in the mirror -----

  /** The amount of event `e` when it is one of type `t` whose handler did at least `writes` writes. */
  function Moved<R>(h: Handlers<R>, e: IndexedEvent, x: Extent, t: EventType, writes: nat): int {
    if e.eventType == t && EventAmount(h, e).Some? && (x.Whole? || x.writes >= writes) then EventAmount(h, e).value else 0
  }

  /** What such events moved in all. */
  function TotalMoved<R>(h: Handlers<R>, log: seq<IndexedEvent>, xs: seq<Extent>, t: EventType, writes: nat): int
    requires |xs| <= |log|
  {
    if xs == [] then 0 else
    var n := |xs| - 1;
    TotalMoved(h, log, xs[..n], t, writes) + Moved(h, log[n], xs[n], t, writes)
  }

  /** What the events of type `t` moved whose handler was cut between its two writes. */
  function Drift<R>(h: Handlers<R>, log: seq<IndexedEvent>, xs: seq<Extent>, t: EventType): int
    requires |xs| <= |log|
  {
    TotalMoved(h, log, xs, t, 1) - TotalMoved(h, log, xs, t, 2)
  }

  predicate Accounted<R>(p: Platform, h: Handlers<R>, log: seq<IndexedEvent>, xs: seq<Extent>)
    requires |xs| <= |log|
  {
    && p.insuranceBalance == TotalMoved(h, log, xs, InsuranceCollected, 1) - TotalMoved(h, log, xs, InsurancePaid, 1)
    && p.insuranceLifetime == TotalMoved(h, log, xs, InsuranceCollected, 2)
    && p.insurancePaid == TotalMoved(h, log, xs, InsurancePaid, 2)
    && p.treasuryBalance == TotalMoved(h, log, xs, TreasuryCollected, 1) - TotalMoved(h, log, xs, TreasuryWithdrawn, 1)
    && p.treasuryLifetime == TotalMoved(h, log, xs, TreasuryCollected, 2)
  }

  /** One event's part in the five balances. */
  lemma PlatformMoves<R>(h: Handlers<R>, m: Mirror<R>, e: IndexedEvent, x: Extent)
    ensures var p, q := m.platform, AppliedTo(h, m, e, x).platform;
            && q.insuranceBalance == p.insuranceBalance + Moved(h, e, x, InsuranceCollected, 1) - Moved(h, e, x, InsurancePaid, 1)
            && q.insuranceLifetime == p.insuranceLifetime + Moved(h, e, x, InsuranceCollected, 2)
            && q.insurancePaid == p.insurancePaid + Moved(h, e, x, InsurancePaid, 2)
            && q.treasuryBalance == p.treasuryBalance + Moved(h, e, x, TreasuryCollected, 1) - Moved(h, e, x, TreasuryWithdrawn, 1)
            && q.treasuryLifetime == p.treasuryLifetime + Moved(h, e, x, TreasuryCollected, 2)
  {
    hide AsBigint;
    if x.Torn? && EventAmount(h, e).Some? {
      DeltasOneByOne(m.platform, e.eventType, EventAmount(h, e).value);
    }
  }

  /** Whatever events were handled, and however far: each balance is the sum of the writes that reached it. */
  lemma {:induction false} FoldAccounts<R>(h: Handlers<R>, rest: R, log: seq<IndexedEvent>, xs: seq<Extent>)
    requires |xs| <= |log|
    ensures Accounted(FoldTo(h, Mirror(EMPTY_PLATFORM, rest), log, xs).platform, h, log, xs)
  {
    hide AppliedTo;
    hide Moved;
    if xs != [] {
      var n := |xs| - 1;
      FoldAccounts(h, rest, log, xs[..n]);
      PlatformMoves(h, FoldTo(h, Mirror(EMPTY_PLATFORM, rest), log, xs[..n]), log[n], xs[n]);
    }
  }

  lemma {:induction false} NoDrift<R>(h: Handlers<R>, log: seq<IndexedEvent>, xs: seq<Extent>, t: EventType)
    requires |xs| <= |log| && Torn(1) !in xs
    ensures Drift(h, log, xs, t) == 0
  {
    if xs != [] {
      var n := |xs| - 1;
      NoDrift(h, log, xs[..n], t);
      assert xs[n] in xs;
    }
  }

  /**
   * At every point of every run, crashes anywhere included, a mirrored balance is off by exactly what the events moved
   * whose handler was cut between its two writes; where none was, insurance balance = lifetime - paid and treasury
   * balance = lifetime - withdrawn.
   */
  lemma RunConserves<R>(log: seq<IndexedEvent>, rest: R, steps: seq<RunStep>, h: Handlers<R>, pageSize: nat)
    requires UniqueKeys(Run(Init(log, rest), steps, h, pageSize).log)
    ensures var w := Run(Init(log, rest), steps, h, pageSize);
            var p, xs := w.store.mirror.platform, w.handled;
            && |xs| <= |w.log|
            && p.insuranceBalance == p.insuranceLifetime - p.insurancePaid
                 + Drift(h, w.log, xs, InsuranceCollected) - Drift(h, w.log, xs, InsurancePaid)
            && p.treasuryBalance == p.treasuryLifetime - TotalMoved(h, w.log, xs, TreasuryWithdrawn, 1)
                 + Drift(h, w.log, xs, TreasuryCollected)
            && (Torn(1) !in xs ==>
              && p.insuranceBalance == p.insuranceLifetime - p.insurancePaid
              && p.treasuryBalance == p.treasuryLifetime - TotalMoved(h, w.log, xs, TreasuryWithdrawn, 1))
  {
    hide Run;
    hide FoldTo;
    hide TotalMoved;
    RunConsistent(log, rest, steps, h, pageSize);
    var w := Run(Init(log, rest), steps, h, pageSize);
    FoldAccounts(h, rest, w.log, w.handled);
    if Torn(1) !in w.handled {
      NoDrift(h, w.log, w.handled, InsuranceCollected);
      NoDrift(h, w.log, w.handled, InsurancePaid);
      NoDrift(h, w.log, w.handled, TreasuryCollected);
    }
  }

  /** A collected amount whose handler died behind its first write: 5 in the balance, nothing in the lifetime. */
  lemma TornDrifts<R>(rest: R, h: Handlers<R>)
    ensures var e := IndexedEvent("d", 0, 0, 0, InsuranceCollected, map["amount_atomic" := JNumber(Decimal.Whole(5))]);
            var p := Run(Init([e], rest), [DiesInside(0, 1)], h, 1).store.mirror.platform;
            p.insuranceBalance == 5 && p.insuranceLifetime == 0 && p.insurancePaid == 0
  {
    var e := IndexedEvent("d", 0, 0, 0, InsuranceCollected, map["amount_atomic" := JNumber(Decimal.Whole(5))]);
    var w := Init([e], rest);
    RunSnoc(w, [], DiesInside(0, 1), h, 1);
    assert [] + [DiesInside(0, 1)] == [DiesInside(0, 1)];
    FirstDies(e, rest, h, 1);
    FirstWriteOnly(e, rest, h);
    hide *;
  }

  lemma FirstWriteOnly<R>(e: IndexedEvent, rest: R, h: Handlers<R>)
    requires e.eventType == InsuranceCollected && EventAmount(h, e) == Some(5)
    ensures PartlyApplied(h, Mirror(EMPTY_PLATFORM, rest), e, 1).platform == Platform(0, 5, 0, 0, 0)
  {
    hide WithDeltas;
    hide EventAmount;
    DeltasOneByOne(EMPTY_PLATFORM, InsuranceCollected, 5);
  }

  /** The process dies in its first dispatch. */
  lemma FirstDies<R>(e: IndexedEvent, rest: R, h: Handlers<R>, writes: nat)
    ensures var w := Run(Init([e], rest), [], h, 1);
            Step(w, DiesInside(0, writes), h, 1).store.mirror == PartlyApplied(h, Mirror(EMPTY_PLATFORM, rest), e, writes)
  {
    hide PartlyApplied;
    hide EventKey;
    var w := Init([e], rest);
    assert Lo(w) == 0 && Hi(w, 1) == 1;
  }
}
