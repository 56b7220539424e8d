/** The SLA slashing pass, and what holds over every history of passes. */
module SlaRuns {
  import opened Common
  import opened OrderStatistics
  import opened Quality
  import opened Sla

  /**
   * One staked server in one pass: its window, its server's fresh attestation if there is one, whether a slash would land,
   * and whether writing its streak would succeed.
   */
  datatype Observation = Observation(
    stake: StakedServer, uptimeX100: nat, sampleCount: nat, attestation: Option<string>, lands: bool, writes: bool)

  function Eval(o: Observation): SlaEvaluation { EvaluateSla(o.stake, o.uptimeX100, o.sampleCount) }

  function AmountOf(o: Observation): int { SlashAmountAtomic(Eval(o), o.stake.remainingStakeAtomic) }

  /** The amount of the slash transaction this observation leads to, when it leads to one. */
  function AttemptOf(prev: nat, o: Observation): Option<int> {
    if NextBreachStreak(prev, Eval(o)).1 && AmountOf(o) > 0 && o.attestation.Some? then Some(AmountOf(o)) else None
  }

  /** The pass sets out to write the streak: behind a slash that landed, and without one whenever it changed. */
  predicate WantsWrite(prev: nat, o: Observation) {
    if AttemptOf(prev, o).Some? then o.lands else NextBreachStreak(prev, Eval(o)).0 != prev
  }

  /** A failed transaction leaves the streak as it was, and so does a failed write. */
  function StreakAfter(prev: nat, o: Observation): nat {
    if WantsWrite(prev, o) && o.writes then NextBreachStreak(prev, Eval(o)).0 else prev
  }

  /** A slash is due and cannot be proved on chain. */
  predicate Skips(prev: nat, o: Observation) {
    NextBreachStreak(prev, Eval(o)).1 && AmountOf(o) > 0 && o.attestation.None?
  }

  /** The stake's turn ends in the handler of errors. */
  predicate Fails(prev: nat, o: Observation) {
    (AttemptOf(prev, o).Some? && !o.lands) || (WantsWrite(prev, o) && !o.writes)
  }

  /** What a pass reports; a failure is named by its stake. */
  datatype Tally = Tally(submitted: nat, total: int, skipped: nat, failures: seq<string>)

  /** A slash is reported once its streak was written, too. */
  function Counted(t: Tally, prev: nat, o: Observation): Tally {
    var done := AttemptOf(prev, o).Some? && o.lands && o.writes;
    var id := [o.stake.stakeObjectId];
    Tally(
      t.submitted + (if done then 1 else 0),
      t.total + (if done then AttemptOf(prev, o).value else 0),
      t.skipped + (if Skips(prev, o) then 1 else 0),
      t.failures + (if Skips(prev, o) then id else []) + (if Fails(prev, o) then id else []))
  }

  function TallyOf(streaks: map<string, nat>, obs: seq<Observation>): Tally {
    if obs == [] then Tally(0, 0, 0, []) else
    var init, o := obs[..|obs| - 1], obs[|obs| - 1];
    Counted(TallyOf(streaks, init), StreakOf(FoldStreaks(streaks, init), o.stake.stakeObjectId), o)
  }

  function StreakOf(streaks: map<string, nat>, id: string): nat { if id in streaks then streaks[id] else 0 }

  /** The store after one observation: written only when the streak changed. */
  function Observed(streaks: map<string, nat>, o: Observation): map<string, nat> {
    var id := o.stake.stakeObjectId;
    var next := StreakAfter(StreakOf(streaks, id), o);
    if next == StreakOf(streaks, id) then streaks else streaks[id := next]
  }

  function FoldStreaks(streaks: map<string, nat>, obs: seq<Observation>): map<string, nat> {
    if obs == [] then streaks else Observed(FoldStreaks(streaks, obs[..|obs| - 1]), obs[|obs| - 1])
  }

  /** A slash as it was submitted, and whether it went through. */
  datatype Attempt = Attempt(
    stakeObjectId: string, serverObjectId: string, attestationObjectId: string, amountAtomic: int, landed: bool)

  function AttemptsOf(streaks: map<string, nat>, obs: seq<Observation>): seq<Attempt> {
    if obs == [] then [] else
    var init, o := obs[..|obs| - 1], obs[|obs| - 1];
    AttemptsOf(streaks, init) + AttemptList(StreakOf(FoldStreaks(streaks, init), o.stake.stakeObjectId), o)
  }

  function LandedCount(attempts: seq<Attempt>): nat {
    if attempts == [] then 0
    else LandedCount(attempts[..|attempts| - 1]) + (if attempts[|attempts| - 1].landed then 1 else 0)
  }

  function LandedTotal(attempts: seq<Attempt>): int {
    if attempts == [] then 0 else
    var a := attempts[|attempts| - 1];
    LandedTotal(attempts[..|attempts| - 1]) + (if a.landed then a.amountAtomic else 0)
  }

  function CountBreaches(obs: seq<Observation>): nat {
    if obs == [] then 0 else CountBreaches(obs[..|obs| - 1]) + (if Eval(obs[|obs| - 1]).inBreach then 1 else 0)
  }

  function AttemptList(prev: nat, o: Observation): seq<Attempt> {
    match AttemptOf(prev, o)
    case None => []
    case Some(a) => [Attempt(o.stake.stakeObjectId, o.stake.serverObjectId, o.attestation.value, a, o.lands)]
  }

  lemma AttemptsGrow(streaks: map<string, nat>, obs: seq<Observation>, o: Observation)
    ensures FoldStreaks(streaks, obs + [o]) == Observed(FoldStreaks(streaks, obs), o)
    ensures AttemptsOf(streaks, obs + [o])
      == AttemptsOf(streaks, obs) + AttemptList(StreakOf(FoldStreaks(streaks, obs), o.stake.stakeObjectId), o)
    ensures CountBreaches(obs + [o]) == CountBreaches(obs) + (if Eval(o).inBreach then 1 else 0)
    ensures TallyOf(streaks, obs + [o])
      == Counted(TallyOf(streaks, obs), StreakOf(FoldStreaks(streaks, obs), o.stake.stakeObjectId), o)
  {
    hide Counted;
    hide Observed;
    hide AttemptList;
    hide Eval;
    assert (obs + [o])[..|obs|] == obs;
  }

  lemma LandedMore(attempts: seq<Attempt>, prev: nat, o: Observation)
    ensures LandedCount(attempts + AttemptList(prev, o))
      == LandedCount(attempts) + (if AttemptOf(prev, o).Some? && o.lands then 1 else 0)
    ensures LandedTotal(attempts + AttemptList(prev, o))
      == LandedTotal(attempts) + (if AttemptOf(prev, o).Some? && o.lands then AttemptOf(prev, o).value else 0)
  {
    var more := AttemptList(prev, o);
    if more == [] {
      assert attempts + more == attempts;
    } else {
      assert (attempts + more)[..|attempts|] == attempts;
    }
  }

  // ----- the pass -----

  class BreachStreakStore {
    /** The stakes whose streak can be written. */
    const writable: set<string>
    var streaks: map<string, nat>

    constructor (writable: set<string>)
      ensures this.writable == writable && streaks == map[]
    {
      this.writable, streaks := writable, map[];
    }

    method GetStreak(id: string) returns (n: nat)
      ensures n == StreakOf(streaks, id)
    {
      n := if id in streaks then streaks[id] else 0;
    }

    /** False where the write fails. */
    method SetStreak(id: string, n: nat) returns (ok: bool)
      modifies this`streaks
      ensures ok <==> id in writable
      ensures streaks == if ok then old(streaks)[id := n] else old(streaks)
    {
      ok := id in writable;
      if ok {
        streaks := streaks[id := n];
      }
    }
  }

  class SlashChainClient {
    /** The stakes whose slash transaction would go through. */
    const live: set<string>
    var attempts: seq<Attempt>

    constructor (live: set<string>)
      ensures this.live == live && attempts == []
    {
      this.live, attempts := live, [];
    }

    /** False where the transaction fails. */
    method Slash(id: string, server: string, attestation: string, amount: int) returns (ok: bool)
      modifies this
      ensures ok <==> id in live
      ensures attempts == old(attempts) + [Attempt(id, server, attestation, amount, ok)]
    {
      ok := id in live;
      attempts := attempts + [Attempt(id, server, attestation, amount, ok)];
    }
  }

  /** `q?.uptimeX100 ?? 0`, which is never negative. */
  function UptimeOf(q: Option<ServerQuality>): nat { if q.Some? then Max(q.value.uptimeX100, 0) else 0 }

  /** `q?.sampleCount ?? 0`. */
  function CountOf(q: Option<ServerQuality>): nat { if q.Some? then q.value.sampleCount else 0 }

  /** `attestationsByServer.get(server)`. */
  function AttestationOf(stake: StakedServer, attestations: map<string, string>): Option<string> {
    if stake.serverObjectId in attestations then Some(attestations[stake.serverObjectId]) else None
  }

  function ObservationOf(
    stake: StakedServer, samples: seq<CallSample>, attestations: map<string, string>, live: set<string>,
    writable: set<string>): Observation
  {
    Observation(
      stake, UptimeOf(EntryOf(stake.serverObjectId, samples)), CountOf(EntryOf(stake.serverObjectId, samples)),
      AttestationOf(stake, attestations), stake.stakeObjectId in live, stake.stakeObjectId in writable)
  }

  function Observations(
    stakes: seq<StakedServer>, samples: seq<CallSample>, attestations: map<string, string>, live: set<string>,
    writable: set<string>)
    : (obs: seq<Observation>)
    ensures |obs| == |stakes|
  {
    seq(|stakes|, i requires 0 <= i < |stakes| => ObservationOf(stakes[i], samples, attestations, live, writable))
  }

  /** `qByServer.get(id)` over the report. */
  function Lookup(report: seq<ServerQuality>, id: string): Option<ServerQuality> {
    if report == [] then None
    else if report[0].serverObjectId == id then Some(report[0])
    else Lookup(report[1..], id)
  }

  lemma {:induction false} LookupFinds(report: seq<ServerQuality>, id: string)
    ensures Lookup(report, id).Some? <==> id in IdSet(report)
    ensures Lookup(report, id).Some? ==> Lookup(report, id).value in report && Lookup(report, id).value.serverObjectId == id
  {
    if report != [] {
      LookupFinds(report[1..], id);
      assert report == [report[0]] + report[1..];
    }
  }

  lemma LookupIsEntry(report: seq<ServerQuality>, samples: seq<CallSample>, id: string)
    requires IsReport(report, samples)
    ensures Lookup(report, id) == EntryOf(id, samples)
  {
    LookupFinds(report, id);
    FilterOccurs(samples, id);
  }

  lemma ObservationMatches(
    stakes: seq<StakedServer>, samples: seq<CallSample>, attestations: map<string, string>, live: set<string>,
    writable: set<string>, report: seq<ServerQuality>, i: nat)
    requires IsReport(report, samples) && i < |stakes|
    ensures var obs := Observations(stakes, samples, attestations, live, writable);
            var q := Lookup(report, stakes[i].serverObjectId);
            && |obs| == |stakes| && obs[..i + 1] == obs[..i] + [obs[i]]
            && obs[i].stake == stakes[i]
            && Eval(obs[i]) == EvaluateSla(stakes[i], UptimeOf(q), CountOf(q))
            && obs[i].attestation == AttestationOf(stakes[i], attestations)
            && (obs[i].lands <==> stakes[i].stakeObjectId in live)
            && (obs[i].writes <==> stakes[i].stakeObjectId in writable)
  {
    hide EvaluateSla;
    hide EntryOf;
    hide Lookup;
    hide IsReport;
    LookupIsEntry(report, samples, stakes[i].serverObjectId);
  }

  datatype SlaSlashResult = SlaSlashResult(
    stakesEvaluated: nat, inBreach: nat, slashesSubmitted: nat, slashedAtomicTotal: int,
    skippedNoAttestation: nat, failures: seq<string>)

  /** One pass over the active stakes of a closed window. */
  method RunSlaSlashing(
    stakes: seq<StakedServer>, streakStore: BreachStreakStore, chain: SlashChainClient,
    samples: seq<CallSample>, attestations: map<string, string>)
    returns (r: SlaSlashResult)
    modifies streakStore, chain
    ensures var obs := Observations(stakes, samples, attestations, chain.live, streakStore.writable);
            var start := old(streakStore.streaks);
            var t := TallyOf(start, obs);
            && streakStore.streaks == FoldStreaks(start, obs)
            && chain.attempts == old(chain.attempts) + AttemptsOf(start, obs)
            && r == SlaSlashResult(|stakes|, CountBreaches(obs), t.submitted, t.total, t.skipped, t.failures)
  {
    hide *;
    var report := ComputeAllServerQuality(samples);
    var inBreach, tally := 0, Tally(0, 0, 0, []);
    ghost var start := streakStore.streaks;
    ghost var obs := Observations(stakes, samples, attestations, chain.live, streakStore.writable);
    ghost var tried := AttemptsOf(start, []);
    NothingYet(start);
    for i := 0 to |stakes|
      invariant tried == AttemptsOf(start, obs[..i])
      invariant streakStore.streaks == FoldStreaks(start, obs[..i])
      invariant chain.attempts == old(chain.attempts) + tried
      invariant inBreach == CountBreaches(obs[..i])
      invariant tally == TallyOf(start, obs[..i])
    {
      var stake := stakes[i];
      ghost var prev := StreakOf(streakStore.streaks, stake.stakeObjectId);
      ObservationMatches(stakes, samples, attestations, chain.live, streakStore.writable, report, i);
      AttemptsGrow(start, obs[..i], obs[i]);
      var q := Lookup(report, stake.serverObjectId);
      var evaluation := EvaluateSla(stake, UptimeOf(q), CountOf(q));
      if evaluation.inBreach {
        inBreach := inBreach + 1;
      }
      tally := SlashOne(tally, stake, evaluation, obs[i], streakStore, chain, attestations);
      tried := tried + AttemptList(prev, obs[i]);
    }
    assert obs[..|obs|] == obs;
    r := SlaSlashResult(|stakes|, inBreach, tally.submitted, tally.total, tally.skipped, tally.failures);
  }

  lemma NothingYet(streaks: map<string, nat>)
    ensures FoldStreaks(streaks, []) == streaks && AttemptsOf(streaks, []) == []
    ensures CountBreaches([]) == 0 && LandedCount([]) == 0 && LandedTotal([]) == 0
    ensures TallyOf(streaks, []) == Tally(0, 0, 0, [])
  {
  }

  /** One stake's turn; a slash or a write that fails goes to the failures, and the next stake has its turn. */
  method SlashOne(
    before: Tally, stake: StakedServer, evaluation: SlaEvaluation, ghost o: Observation,
    streakStore: BreachStreakStore, chain: SlashChainClient, attestations: map<string, string>)
    returns (t: Tally)
    requires o.stake == stake && evaluation == Eval(o)
    requires o.attestation == AttestationOf(stake, attestations) && (o.lands <==> stake.stakeObjectId in chain.live)
    requires o.writes <==> stake.stakeObjectId in streakStore.writable
    modifies streakStore`streaks, chain
    ensures streakStore.streaks == Observed(old(streakStore.streaks), o)
    ensures chain.attempts
         == old(chain.attempts) + AttemptList(StreakOf(old(streakStore.streaks), stake.stakeObjectId), o)
    ensures t == Counted(before, StreakOf(old(streakStore.streaks), stake.stakeObjectId), o)
  {
    t := before;
    var id := stake.stakeObjectId;
    var prev := streakStore.GetStreak(id);
    var (consecutive, shouldSlash) := NextBreachStreak(prev, evaluation);
    var ok := true;
    if !shouldSlash {
      if consecutive != prev {
        ok := streakStore.SetStreak(id, consecutive);
      }
    } else {
      var amount := SlashAmountAtomic(evaluation, stake.remainingStakeAtomic);
      if amount <= 0 {
        ok := streakStore.SetStreak(id, consecutive);
      } else if stake.serverObjectId !in attestations {
        t := t.(skipped := t.skipped + 1, failures := t.failures + [id]);
        ok := streakStore.SetStreak(id, consecutive);
      } else {
        ok := chain.Slash(id, stake.serverObjectId, attestations[stake.serverObjectId], amount);
        if ok {
          ok := streakStore.SetStreak(id, consecutive);
        }
        if ok {
          t := t.(submitted := t.submitted + 1, total := t.total + amount);
        }
      }
    }
    if !ok {
      t := t.(failures := t.failures + [id]);
    }
  }

  // ----- what a pass sees and reports -----

  /** What a stake's window is, measured on the samples: the successes among its server's calls, in hundredths of a percent. */
  lemma ObservationMeans(
    stake: StakedServer, samples: seq<CallSample>, attestations: map<string, string>, live: set<string>,
    writable: set<string>)
    ensures var o := ObservationOf(stake, samples, attestations, live, writable);
            var calls := CountIf(samples, OfServer(stake.serverObjectId));
            var good := CountIf(samples, Succeeded(stake.serverObjectId));
            && o.stake == stake && o.sampleCount == calls
            && (calls == 0 ==> o.uptimeX100 == 0)
            && (calls > 0 ==> o.uptimeX100 == RoundHalfUp(10_000.0 * (good as real / calls as real)))
            && (o.attestation.Some? <==> stake.serverObjectId in attestations)
            && (o.attestation.Some? ==> o.attestation.value == attestations[stake.serverObjectId])
            && (o.lands <==> stake.stakeObjectId in live) && (o.writes <==> stake.stakeObjectId in writable)
  {
    hide Filter;
    hide CountSuccess;
    hide CountIf;
    hide Metrics;
    hide P95;
    hide RoundHalfUp;
    var id, own := stake.serverObjectId, Filter(samples, stake.serverObjectId);
    FilterCounts(samples, id);
    if own != [] {
      SuccessesAmong(own);
      MetricsMean(id, |own|, CountSuccess(own), P95(Latencies(own)));
      UptimeNotNegative(|own|, CountSuccess(own));
    }
  }

  lemma UptimeNotNegative(total: nat, success: nat)
    requires 0 < total && success <= total
    ensures RoundHalfUp(10_000.0 * (success as real / total as real)) >= 0
  {
    hide RoundHalfUp;
    var u := UptimeFraction(success, total);
    RoundedInRange(10_000.0 * u, 10_000);
  }

  /** The observations whose window breaches: some calls, and an uptime below the committed one. */
  function BreachCount(obs: seq<Observation>): nat {
    if obs == [] then 0 else
    var o := obs[|obs| - 1];
    BreachCount(obs[..|obs| - 1]) + (if o.sampleCount > 0 && o.uptimeX100 < o.stake.slaUptimeX100 then 1 else 0)
  }

  /** A slash is due: the streak it would make is long enough, and there is something to take. */
  predicate Due(prev: nat, o: Observation) {
    o.sampleCount > 0 && o.uptimeX100 < o.stake.slaUptimeX100 && prev + 1 >= 2 && AmountOf(o) > 0
  }

  /** How many slashes were due, and how many turns ended in the handler of errors. */
  function DueCount(streaks: map<string, nat>, obs: seq<Observation>): (nat, nat) {
    if obs == [] then (0, 0) else
    var init, o := obs[..|obs| - 1], obs[|obs| - 1];
    var prev, before := StreakOf(FoldStreaks(streaks, init), o.stake.stakeObjectId), DueCount(streaks, init);
    (before.0 + (if Due(prev, o) then 1 else 0), before.1 + (if Fails(prev, o) then 1 else 0))
  }

  /**
   * The streak one turn leaves: a window without calls keeps it, a compliant one resets it, a breach adds one to it;
   * it stays where it was when writing it fails or the slash that is due and attested does not go through.
   */
  lemma StreakMeans(streaks: map<string, nat>, o: Observation, other: string)
    ensures var id := o.stake.stakeObjectId;
            var prev, next := StreakOf(streaks, id), StreakOf(Observed(streaks, o), id);
            var blocked := !o.writes || (Due(prev, o) && o.attestation.Some? && !o.lands);
            && (blocked || o.sampleCount == 0 ==> next == prev)
            && (!blocked && o.sampleCount > 0 ==> next == if o.uptimeX100 < o.stake.slaUptimeX100 then prev + 1 else 0)
            && (other != id ==> StreakOf(Observed(streaks, o), other) == StreakOf(streaks, other))
  {
    hide SlashAmountAtomic;
  }

  /** A turn is named among the failures for a slash that lacks an attestation, and for a slash or a write that failed. */
  lemma FailureMeans(prev: nat, o: Observation)
    ensures Skips(prev, o) <==> Due(prev, o) && o.attestation.None?
    ensures var tried := Due(prev, o) && o.attestation.Some?;
            var next := if o.sampleCount == 0 then prev else if o.uptimeX100 < o.stake.slaUptimeX100 then prev + 1 else 0;
            Fails(prev, o) <==> (tried && !o.lands) || (!(tried && !o.lands) && next != prev && !o.writes)
  {
    hide SlashAmountAtomic;
  }

  /**
   * No slash that is due goes unaccounted: each is attempted or reported as skipped. Every skip and every turn that failed
   * is named once in the failures, and breaches are the windows below their commitment.
   */
  lemma {:induction false} EveryDueSlashAccounted(streaks: map<string, nat>, obs: seq<Observation>)
    ensures |AttemptsOf(streaks, obs)| + TallyOf(streaks, obs).skipped == DueCount(streaks, obs).0
    ensures |TallyOf(streaks, obs).failures| == TallyOf(streaks, obs).skipped + DueCount(streaks, obs).1
    ensures CountBreaches(obs) == BreachCount(obs)
    ensures forall f | f in TallyOf(streaks, obs).failures :: exists i :: 0 <= i < |obs| && obs[i].stake.stakeObjectId == f
  {
    hide AmountOf;
    hide WantsWrite;
    if obs != [] {
      var init, o := obs[..|obs| - 1], obs[|obs| - 1];
      EveryDueSlashAccounted(streaks, init);
      forall f | f in TallyOf(streaks, obs).failures ensures exists i :: 0 <= i < |obs| && obs[i].stake.stakeObjectId == f {
        if f in TallyOf(streaks, init).failures {
          var i :| 0 <= i < |init| && init[i].stake.stakeObjectId == f;
          assert obs[i].stake.stakeObjectId == f;
        } else {
          assert obs[|obs| - 1].stake.stakeObjectId == f;
        }
      }
    }
  }

  /** What is submitted for a slash that is due and attested: the stake, its server, the attestation, the amount. */
  lemma SubmitsSlash(streaks: map<string, nat>, obs: seq<Observation>, o: Observation)
    ensures var prev := StreakOf(FoldStreaks(streaks, obs), o.stake.stakeObjectId);
            AttemptsOf(streaks, obs + [o]) == AttemptsOf(streaks, obs) +
              (if Due(prev, o) && o.attestation.Some? then
                 [Attempt(
                    o.stake.stakeObjectId, o.stake.serverObjectId, o.attestation.value,
                    SlashAmountAtomic(EvaluateSla(o.stake, o.uptimeX100, o.sampleCount), o.stake.remainingStakeAtomic), o.lands)]
               else [])
  {
    hide SlashAmountAtomic;
    hide FoldStreaks;
    AttemptsGrow(streaks, obs, o);
    hide AttemptsOf;
  }

  // ----- what the report says -----

  /** The slash landed and is not reported, because its streak could not be written. */
  predicate LandsUnreported(prev: nat, o: Observation) { AttemptOf(prev, o).Some? && o.lands && !o.writes }

  /** How many slashes of a history landed unreported, and their sum. */
  function Unreported(streaks: map<string, nat>, obs: seq<Observation>): (nat, int) {
    if obs == [] then (0, 0) else
    var init, o := obs[..|obs| - 1], obs[|obs| - 1];
    var prev, before := StreakOf(FoldStreaks(streaks, init), o.stake.stakeObjectId), Unreported(streaks, init);
    if LandsUnreported(prev, o) then (before.0 + 1, before.1 + AttemptOf(prev, o).value) else before
  }

  /** What landed is what a pass reports and what it leaves unreported, in number and in sum. */
  lemma {:induction false} ReportsLanded(streaks: map<string, nat>, obs: seq<Observation>)
    ensures LandedCount(AttemptsOf(streaks, obs)) == TallyOf(streaks, obs).submitted + Unreported(streaks, obs).0
    ensures LandedTotal(AttemptsOf(streaks, obs)) == TallyOf(streaks, obs).total + Unreported(streaks, obs).1
  {
    hide AttemptOf;
    hide Skips;
    hide Fails;
    hide AttemptList;
    hide LandedCount;
    hide LandedTotal;
    if obs == [] {
      NothingYet(streaks);
    } else {
      var init, o := obs[..|obs| - 1], obs[|obs| - 1];
      ReportsLanded(streaks, init);
      LandedMore(AttemptsOf(streaks, init), StreakOf(FoldStreaks(streaks, init), o.stake.stakeObjectId), o);
    }
  }

  /** A second breach in a row is slashed, and its streak cannot be written: the slash landed and nothing is reported. */
  lemma LandedUnreported(stake: StakedServer)
    requires stake.slaUptimeX100 > 0 && stake.remainingStakeAtomic > 0
    ensures var obs := [Observation(stake, 0, 1, Some("a"), true, true), Observation(stake, 0, 1, Some("a"), true, false)];
            LandedCount(AttemptsOf(map[], obs)) == 1 && TallyOf(map[], obs).submitted == 0
  {
    var a, b := Observation(stake, 0, 1, Some("a"), true, true), Observation(stake, 0, 1, Some("a"), true, false);
    DeadServerLosesAll(stake, 1);
    assert [a, b][..1] == [a] && [a][..0] == [];
    assert FoldStreaks(map[], [a]) == map[stake.stakeObjectId := 1];
    assert AttemptsOf(map[], [a]) == [] + [];
    var x := Attempt(stake.stakeObjectId, stake.serverObjectId, "a", stake.remainingStakeAtomic, true);
    assert AttemptsOf(map[], [a, b]) == [] + [x] && [x][..0] == [];
    assert TallyOf(map[], [a]).submitted == 0;
  }

  // ----- every history -----

  /** The windows of one stake that gave a signal: true for a breach. */
  function Verdicts(obs: seq<Observation>, id: string): seq<bool> {
    if obs == [] then [] else
    var o := obs[|obs| - 1];
    Verdicts(obs[..|obs| - 1], id)
      + (if o.stake.stakeObjectId == id && o.sampleCount > 0 then [o.uptimeX100 < o.stake.slaUptimeX100] else [])
  }

  function TrailingBreaches(v: seq<bool>): nat {
    if v == [] || !v[|v| - 1] then 0 else 1 + TrailingBreaches(v[..|v| - 1])
  }

  function RunLength(obs: seq<Observation>, id: string): nat { TrailingBreaches(Verdicts(obs, id)) }

  lemma VerdictsGrow(obs: seq<Observation>, o: Observation, id: string)
    ensures Verdicts(obs + [o], id) == Verdicts(obs, id)
      + (if o.stake.stakeObjectId == id && o.sampleCount > 0 then [o.uptimeX100 < o.stake.slaUptimeX100] else [])
  {
    assert (obs + [o])[..|obs|] == obs;
  }

  lemma TrailingSnoc(v: seq<bool>, b: bool)
    ensures TrailingBreaches(v + [b]) == if b then TrailingBreaches(v) + 1 else 0
  {
    assert (v + [b])[..|v|] == v;
  }

  /** How one observation moves the run of breaches. */
  lemma RunLengthGrows(obs: seq<Observation>, o: Observation, id: string)
    ensures RunLength(obs + [o], id) ==
      if o.stake.stakeObjectId != id || o.sampleCount == 0 then RunLength(obs, id)
      else if o.uptimeX100 < o.stake.slaUptimeX100 then RunLength(obs, id) + 1
      else 0
  {
    VerdictsGrow(obs, o, id);
    hide Verdicts;
    hide TrailingBreaches;
    if o.stake.stakeObjectId == id && o.sampleCount > 0 {
      TrailingSnoc(Verdicts(obs, id), o.uptimeX100 < o.stake.slaUptimeX100);
    } else {
      assert Verdicts(obs, id) + [] == Verdicts(obs, id);
    }
  }

  /** The persisted streak is 0 exactly when the run of breaches is, and never exceeds it. */
  predicate Tracks(obs: seq<Observation>, id: string) {
    var n := StreakOf(FoldStreaks(map[], obs), id);
    (n == 0 <==> RunLength(obs, id) == 0) && n <= RunLength(obs, id)
  }

  /** A streak write fails that would have started the streak or reset it. */
  predicate LosesTrack(prev: nat, o: Observation) {
    WantsWrite(prev, o) && !o.writes && (prev == 0 || NextBreachStreak(prev, Eval(o)).0 == 0)
  }

  /** The pass over observation `k` loses track of the stake. */
  predicate LosesAt(obs: seq<Observation>, id: string, k: nat)
    requires k < |obs|
  {
    obs[k].stake.stakeObjectId == id && LosesTrack(StreakOf(FoldStreaks(map[], obs[..k]), id), obs[k])
  }

  lemma TrackStep(obs: seq<Observation>, o: Observation, id: string)
    requires Tracks(obs, id)
    ensures Tracks(obs + [o], id) <==> !LosesAt(obs + [o], id, |obs|)
  {
    hide RunLength;
    hide AmountOf;
    RunLengthGrows(obs, o, id);
    assert (obs + [o])[..|obs|] == obs;
  }

  /**
   * Over every history, whatever slash transactions fail and whatever attestations are missing: the persisted streak
   * tracks the run of breaches all along exactly when no write failed that would have started or reset it.
   */
  lemma {:induction false} StreakTracksRun(obs: seq<Observation>, id: string)
    ensures (forall k | 0 <= k <= |obs| :: Tracks(obs[..k], id)) <==> (forall k | 0 <= k < |obs| :: !LosesAt(obs, id, k))
  {
    hide Tracks;
    if obs == [] {
      StartsTracked(id);
    } else {
      var init, o := obs[..|obs| - 1], obs[|obs| - 1];
      StreakTracksRun(init, id);
      assert obs == init + [o] && obs[..|obs|] == obs;
      forall k | 0 <= k <= |init| ensures obs[..k] == init[..k] {
      }
      forall k | 0 <= k < |init| ensures LosesAt(obs, id, k) <==> LosesAt(init, id, k) {
        assert obs[..k] == init[..k];
      }
      hide LosesAt;
      assert init[..|init|] == init;
      if Tracks(init, id) {
        TrackStep(init, o, id);
      }
    }
  }

  lemma StartsTracked(id: string)
    ensures Tracks([], id)
  {
  }

  /**
   * While track is kept, a slash is attempted exactly when this window breaches, it is at least the second breach in a
   * row among the windows with a signal, the computed amount is positive, and a fresh attestation exists.
   */
  lemma SlashIffTwoBreaches(obs: seq<Observation>, o: Observation)
    requires forall k | 0 <= k < |obs| :: !LosesAt(obs, o.stake.stakeObjectId, k)
    ensures var id := o.stake.stakeObjectId;
            AttemptOf(StreakOf(FoldStreaks(map[], obs), id), o).Some? <==>
              && Eval(o).inBreach && RunLength(obs + [o], id) >= 2
              && AmountOf(o) > 0 && o.attestation.Some?
  {
    hide LosesAt;
    hide RunLength;
    hide AmountOf;
    hide FoldStreaks;
    StreakTracksRun(obs, o.stake.stakeObjectId);
    assert obs[..|obs|] == obs;
    assert Tracks(obs, o.stake.stakeObjectId);
    RunLengthGrows(obs, o, o.stake.stakeObjectId);
  }

  /** Two breaches in a row, a positive amount and an attestation. */
  predicate DueBy(obs: seq<Observation>, o: Observation) {
    && Eval(o).inBreach && RunLength(obs + [o], o.stake.stakeObjectId) >= 2
    && AmountOf(o) > 0 && o.attestation.Some?
  }

  predicate AttemptedNext(obs: seq<Observation>, o: Observation) {
    AttemptOf(StreakOf(FoldStreaks(map[], obs), o.stake.stakeObjectId), o).Some?
  }

  /** Whatever is observed of the stake next, it is slashed exactly when a slash is due. */
  ghost predicate SlashesWhenDue(obs: seq<Observation>, id: string) {
    forall o: Observation | o.stake.stakeObjectId == id :: AttemptedNext(obs, o) <==> DueBy(obs, o)
  }

  /** The rule holds of a history exactly when its streak is 0 just when its run is. */
  lemma DueIffSameZero(obs: seq<Observation>, id: string)
    ensures SlashesWhenDue(obs, id) <==> (StreakOf(FoldStreaks(map[], obs), id) == 0 <==> RunLength(obs, id) == 0)
  {
    hide FoldStreaks;
    hide RunLength;
    hide SlashAmountAtomic;
    forall o: Observation | o.stake.stakeObjectId == id
      ensures RunLength(obs + [o], id) ==
        if o.sampleCount == 0 then RunLength(obs, id)
        else if o.uptimeX100 < o.stake.slaUptimeX100 then RunLength(obs, id) + 1
        else 0
    {
      RunLengthGrows(obs, o, id);
    }
    var o := Observation(StakedServer(id, "", 10_000, 1), 0, 1, Some("a"), true, true);
    DeadServerLosesAll(o.stake, 1);
    assert AttemptedNext(obs, o) <==> StreakOf(FoldStreaks(map[], obs), id) + 1 >= 2;
    assert DueBy(obs, o) <==> RunLength(obs, id) + 1 >= 2;
  }

  /** Keeping track and losing it, as the zeros alone show. */
  lemma ZeroStep(obs: seq<Observation>, o: Observation, id: string)
    requires Tracks(obs, id) && LosesAt(obs + [o], id, |obs|)
    ensures !(StreakOf(FoldStreaks(map[], obs + [o]), id) == 0 <==> RunLength(obs + [o], id) == 0)
  {
    hide RunLength;
    hide AmountOf;
    RunLengthGrows(obs, o, id);
    assert (obs + [o])[..|obs|] == obs;
  }

  /** The rule holds at every point of a history. */
  ghost predicate AlwaysWhenDue(obs: seq<Observation>, id: string) {
    forall k | 0 <= k <= |obs| :: SlashesWhenDue(obs[..k], id)
  }

  predicate NeverLoses(obs: seq<Observation>, id: string) { forall k | 0 <= k < |obs| :: !LosesAt(obs, id, k) }

  lemma AlwaysSnoc(obs: seq<Observation>, o: Observation, id: string)
    ensures AlwaysWhenDue(obs + [o], id) <==> AlwaysWhenDue(obs, id) && SlashesWhenDue(obs + [o], id)
  {
    hide SlashesWhenDue;
    var all := obs + [o];
    assert all[..|all|] == all;
    forall k | 0 <= k <= |obs| ensures all[..k] == obs[..k] {
    }
  }

  lemma NeverSnoc(obs: seq<Observation>, o: Observation, id: string)
    ensures NeverLoses(obs + [o], id) <==> NeverLoses(obs, id) && !LosesAt(obs + [o], id, |obs|)
  {
    hide LosesTrack;
    hide FoldStreaks;
    var all := obs + [o];
    forall k | 0 <= k < |obs| ensures LosesAt(all, id, k) <==> LosesAt(obs, id, k) {
      assert all[..k] == obs[..k];
    }
  }

  /**
   * The slash rule holds all along a history - whatever comes next, it is slashed exactly on the second breach in a row
   * with a positive amount and an attestation - exactly when no write failed that would have started or reset the streak.
   */
  lemma {:induction false} SlashRuleIff(obs: seq<Observation>, id: string)
    ensures AlwaysWhenDue(obs, id) <==> NeverLoses(obs, id)
  {
    hide SlashesWhenDue;
    hide LosesAt;
    if obs == [] {
      StartsWhenDue(id);
    } else {
      var init, o := obs[..|obs| - 1], obs[|obs| - 1];
      assert obs == init + [o];
      hide AlwaysWhenDue;
      hide NeverLoses;
      SlashRuleIff(init, id);
      AlwaysSnoc(init, o, id);
      NeverSnoc(init, o, id);
      if NeverLoses(init, id) {
        NeverLosesTracks(init, id);
        RuleStep(init, o, id);
      }
    }
  }

  lemma StartsWhenDue(id: string)
    ensures AlwaysWhenDue([], id)
  {
    hide SlashesWhenDue;
    DueIffSameZero([], id);
    StartsTracked(id);
  }

  lemma NeverLosesTracks(obs: seq<Observation>, id: string)
    requires NeverLoses(obs, id)
    ensures Tracks(obs, id)
  {
    hide Tracks;
    hide LosesAt;
    StreakTracksRun(obs, id);
    assert obs[..|obs|] == obs;
  }

  lemma RuleStep(obs: seq<Observation>, o: Observation, id: string)
    requires Tracks(obs, id)
    ensures SlashesWhenDue(obs + [o], id) <==> !LosesAt(obs + [o], id, |obs|)
  {
    hide SlashesWhenDue;
    hide LosesAt;
    hide FoldStreaks;
    hide RunLength;
    DueIffSameZero(obs + [o], id);
    TrackStep(obs, o, id);
    if LosesAt(obs + [o], id, |obs|) {
      ZeroStep(obs, o, id);
    }
  }

  /** A compliant window whose write failed does not break the run of breaches: the next single breach is slashed. */
  lemma LostResetSlashes(stake: StakedServer)
    requires stake.slaUptimeX100 > 0 && stake.remainingStakeAtomic > 0
    ensures var breach := Observation(stake, 0, 1, Some("a"), true, true);
            var compliant := Observation(stake, stake.slaUptimeX100, 1, Some("a"), true, false);
            var obs := [breach, compliant];
            && AttemptOf(StreakOf(FoldStreaks(map[], obs), stake.stakeObjectId), breach).Some?
            && RunLength(obs + [breach], stake.stakeObjectId) == 1
  {
    var id := stake.stakeObjectId;
    var breach := Observation(stake, 0, 1, Some("a"), true, true);
    var compliant := Observation(stake, stake.slaUptimeX100, 1, Some("a"), true, false);
    assert [breach, compliant][..1] == [breach] && [breach][..0] == [];
    assert FoldStreaks(map[], [breach]) == map[id := 1];
    assert FoldStreaks(map[], [breach, compliant]) == map[id := 1];
    DeadServerLosesAll(stake, 1);
    RunLengthGrows([breach], compliant, id);
    assert [breach] + [compliant] == [breach, compliant];
    RunLengthGrows([breach, compliant], breach, id);
  }

  /** Passes compose: a history of passes is one sequence of observations. */
  lemma {:induction false} PassesCompose(streaks: map<string, nat>, a: seq<Observation>, b: seq<Observation>)
    ensures FoldStreaks(FoldStreaks(streaks, a), b) == FoldStreaks(streaks, a + b)
    ensures AttemptsOf(streaks, a) + AttemptsOf(FoldStreaks(streaks, a), b) == AttemptsOf(streaks, a + b)
  {
    hide *;
    if b == [] {
      assert a + b == a;
      NothingYet(FoldStreaks(streaks, a));
    } else {
      var init, o := b[..|b| - 1], b[|b| - 1];
      PassesCompose(streaks, a, init);
      assert b == init + [o] && a + b == (a + init) + [o];
      AttemptsGrow(streaks, a + init, o);
      AttemptsGrow(FoldStreaks(streaks, a), init, o);
      var x, y := AttemptsOf(streaks, a), AttemptsOf(FoldStreaks(streaks, a), init);
      var z := AttemptList(StreakOf(FoldStreaks(streaks, a + init), o.stake.stakeObjectId), o);
      assert x + (y + z) == (x + y) + z;
    }
  }

  // ----- draining the stake -----

  function LandedFor(attempts: seq<Attempt>, id: string): int {
    if attempts == [] then 0 else
    var a := attempts[|attempts| - 1];
    LandedFor(attempts[..|attempts| - 1], id) + (if a.landed && a.stakeObjectId == id then a.amountAtomic else 0)
  }

  /** Every observation saw its stake net of the slashes that had landed on it. */
  predicate Mirrored(posted: map<string, nat>, obs: seq<Observation>) {
    forall i | 0 <= i < |obs| ::
      && obs[i].stake.stakeObjectId in posted
      && obs[i].stake.remainingStakeAtomic
         == posted[obs[i].stake.stakeObjectId] - LandedFor(AttemptsOf(map[], obs[..i]), obs[i].stake.stakeObjectId)
  }

  lemma NothingLanded(id: string)
    ensures LandedFor([], id) == 0
  {
  }

  lemma LandedForMore(attempts: seq<Attempt>, prev: nat, o: Observation, id: string)
    ensures LandedFor(attempts + AttemptList(prev, o), id) == LandedFor(attempts, id)
      + (if AttemptOf(prev, o).Some? && o.lands && o.stake.stakeObjectId == id then AttemptOf(prev, o).value else 0)
  {
    var more := AttemptList(prev, o);
    if more == [] {
      assert attempts + more == attempts;
    } else {
      assert (attempts + more)[..|attempts|] == attempts;
    }
  }

  lemma AttemptInRange(prev: nat, o: Observation)
    requires AttemptOf(prev, o).Some?
    ensures 0 < AttemptOf(prev, o).value <= o.stake.remainingStakeAtomic
  {
    if o.stake.remainingStakeAtomic > 0 {
      SlashInRange(Eval(o), o.stake.remainingStakeAtomic);
    }
  }

  lemma MirroredInit(posted: map<string, nat>, init: seq<Observation>, o: Observation)
    requires Mirrored(posted, init + [o])
    ensures Mirrored(posted, init)
    ensures o.stake.stakeObjectId in posted
    ensures o.stake.remainingStakeAtomic
      == posted[o.stake.stakeObjectId] - LandedFor(AttemptsOf(map[], init), o.stake.stakeObjectId)
  {
    hide AttemptsOf;
    hide LandedFor;
    var obs := init + [o];
    assert obs[|init|] == o && obs[..|init|] == init;
    forall i | 0 <= i < |init| ensures init[i] == obs[i] && init[..i] == obs[..i] {
    }
  }

  /** Over any number of passes the landed slashes of a stake are non-negative and add up to no more than was posted. */
  lemma {:induction false} SlashesNeverOverdraw(posted: map<string, nat>, obs: seq<Observation>, id: string)
    requires Mirrored(posted, obs) && id in posted
    ensures 0 <= LandedFor(AttemptsOf(map[], obs), id) <= posted[id]
  {
    hide *;
    if obs == [] {
      NothingYet(map[]);
      NothingLanded(id);
    } else {
      var init, o := obs[..|obs| - 1], obs[|obs| - 1];
      assert obs == init + [o];
      MirroredInit(posted, init, o);
      SlashesNeverOverdraw(posted, init, id);
      var prev := StreakOf(FoldStreaks(map[], init), o.stake.stakeObjectId);
      AttemptsGrow(map[], init, o);
      LandedForMore(AttemptsOf(map[], init), prev, o, id);
      if AttemptOf(prev, o).Some? {
        AttemptInRange(prev, o);
      }
    }
  }

  // ----- the stakes a pass is given -----

  /** A posted stake as the mirror holds it. */
  datatype StakeRow = StakeRow(stakeObjectId: string, serverObjectId: string, amountAtomic: nat, slaUptimeX100: int)

  predicate DistinctStakes(rows: seq<StakeRow>) {
    forall i, j | 0 <= i < j < |rows| :: rows[i].stakeObjectId != rows[j].stakeObjectId
  }

  function Remaining(row: StakeRow, slashes: seq<Attempt>): int {
    row.amountAtomic - LandedFor(slashes, row.stakeObjectId)
  }

  /** The stakes with something left, each with what is left. */
  function ActiveStakes(rows: seq<StakeRow>, slashes: seq<Attempt>): seq<StakedServer> {
    if rows == [] then [] else
    var r := rows[|rows| - 1];
    ActiveStakes(rows[..|rows| - 1], slashes)
      + (if Remaining(r, slashes) > 0 then
           [StakedServer(r.stakeObjectId, r.serverObjectId, r.slaUptimeX100, Remaining(r, slashes))]
         else [])
  }

  /** The listing has exactly the rows with something left, each once, with its server, committed uptime and what is left. */
  ghost predicate ListsExactly(out: seq<StakedServer>, rows: seq<StakeRow>, slashes: seq<Attempt>) {
    && (forall k | 0 <= k < |rows| ::
          rows[k].amountAtomic > LandedFor(slashes, rows[k].stakeObjectId) <==> HasStake(out, rows[k].stakeObjectId))
    && (forall i | 0 <= i < |out| :: exists k :: 0 <= k < |rows| && ShowsRow(out[i], rows[k], slashes))
    && (forall i, j | 0 <= i < j < |out| :: out[i].stakeObjectId != out[j].stakeObjectId)
  }

  predicate HasStake(out: seq<StakedServer>, id: string) { exists i :: 0 <= i < |out| && out[i].stakeObjectId == id }

  predicate ShowsRow(stake: StakedServer, row: StakeRow, slashes: seq<Attempt>) {
    && stake.stakeObjectId == row.stakeObjectId && stake.serverObjectId == row.serverObjectId
    && stake.slaUptimeX100 == row.slaUptimeX100
    && stake.remainingStakeAtomic == row.amountAtomic - LandedFor(slashes, row.stakeObjectId) > 0
  }

  lemma {:induction false} ActiveListsExactly(rows: seq<StakeRow>, slashes: seq<Attempt>)
    requires DistinctStakes(rows)
    ensures ListsExactly(ActiveStakes(rows, slashes), rows, slashes)
  {
    if rows != [] {
      ActiveListsExactly(rows[..|rows| - 1], slashes);
      RowListed(ActiveStakes(rows[..|rows| - 1], slashes), rows, slashes);
    }
  }

  lemma RowListed(before: seq<StakedServer>, rows: seq<StakeRow>, slashes: seq<Attempt>)
    requires rows != [] && DistinctStakes(rows) && ListsExactly(before, rows[..|rows| - 1], slashes)
    ensures var r := rows[|rows| - 1];
            ListsExactly(
              before + (if Remaining(r, slashes) > 0 then
                [StakedServer(r.stakeObjectId, r.serverObjectId, r.slaUptimeX100, Remaining(r, slashes))] else []),
              rows, slashes)
  {
    hide LandedFor;
    var n, r := |rows| - 1, rows[|rows| - 1];
    var out := before + (if Remaining(r, slashes) > 0 then
      [StakedServer(r.stakeObjectId, r.serverObjectId, r.slaUptimeX100, Remaining(r, slashes))] else []);
    forall i | 0 <= i < |out| ensures exists k :: 0 <= k < |rows| && ShowsRow(out[i], rows[k], slashes) {
      if i < |before| {
        var k :| 0 <= k < n && ShowsRow(before[i], rows[..n][k], slashes);
        assert ShowsRow(out[i], rows[k], slashes);
      } else {
        assert ShowsRow(out[i], rows[n], slashes);
      }
    }
    assert !HasStake(before, r.stakeObjectId) by {
      forall i | 0 <= i < |before| ensures before[i].stakeObjectId != r.stakeObjectId {
        var k :| 0 <= k < n && ShowsRow(before[i], rows[..n][k], slashes);
      }
    }
    forall k | 0 <= k < |rows|
      ensures rows[k].amountAtomic > LandedFor(slashes, rows[k].stakeObjectId) <==> HasStake(out, rows[k].stakeObjectId)
    {
      HasStakeSnoc(before, out, rows[k].stakeObjectId);
      if k < n {
        assert rows[k] == rows[..n][k] && rows[k].stakeObjectId != r.stakeObjectId;
      }
    }
  }

  lemma HasStakeSnoc(before: seq<StakedServer>, out: seq<StakedServer>, id: string)
    requires before <= out && |out| <= |before| + 1
    ensures HasStake(out, id) <==> HasStake(before, id) || (|out| > |before| && out[|before|].stakeObjectId == id)
  {
    if HasStake(before, id) {
      var i :| 0 <= i < |before| && before[i].stakeObjectId == id;
      assert out[i].stakeObjectId == id;
    }
    if HasStake(out, id) {
      var i :| 0 <= i < |out| && out[i].stakeObjectId == id;
      assert i < |before| ==> before[i].stakeObjectId == id;
    }
  }

  /** `listActiveStakes`: sum the slash rows per stake, then keep what is not used up. */
  method ListActiveStakes(rows: seq<StakeRow>, slashes: seq<Attempt>) returns (out: seq<StakedServer>)
    ensures out == ActiveStakes(rows, slashes)
    ensures DistinctStakes(rows) ==> ListsExactly(out, rows, slashes)
  {
    var slashedByStake: map<string, int> := map[];
    for i := 0 to |slashes|
      invariant forall id :: (if id in slashedByStake then slashedByStake[id] else 0) == LandedFor(slashes[..i], id)
    {
      assert slashes[..i + 1][..i] == slashes[..i];
      var s := slashes[i];
      if s.landed {
        var before := if s.stakeObjectId in slashedByStake then slashedByStake[s.stakeObjectId] else 0;
        slashedByStake := slashedByStake[s.stakeObjectId := before + s.amountAtomic];
      }
    }
    assert slashes[..|slashes|] == slashes;
    out := [];
    for i := 0 to |rows|
      invariant out == ActiveStakes(rows[..i], slashes)
    {
      assert rows[..i + 1][..i] == rows[..i];
      var r := rows[i];
      var slashed := if r.stakeObjectId in slashedByStake then slashedByStake[r.stakeObjectId] else 0;
      var remaining := r.amountAtomic - slashed;
      if remaining > 0 {
        out := out + [StakedServer(r.stakeObjectId, r.serverObjectId, r.slaUptimeX100, remaining)];
      }
    }
    assert rows[..|rows|] == rows;
    if DistinctStakes(rows) {
      hide ActiveStakes;
      hide ListsExactly;
      hide LandedFor;
      ActiveListsExactly(rows, slashes);
    }
  }

  /** What a pass is run on, besides the stakes. */
  datatype PassInput = PassInput(
    samples: seq<CallSample>, attestations: map<string, string>, live: set<string>, writable: set<string>)

  /** The observations of a history of passes, each listing the stakes net of what landed before it. */
  function History(rows: seq<StakeRow>, passes: seq<PassInput>): seq<Observation> {
    if passes == [] then [] else
    var before, p := History(rows, passes[..|passes| - 1]), passes[|passes| - 1];
    before + Observations(ActiveStakes(rows, AttemptsOf(map[], before)), p.samples, p.attestations, p.live, p.writable)
  }

  function Posted(rows: seq<StakeRow>): map<string, nat> {
    if rows == [] then map[] else
    Posted(rows[..|rows| - 1])[rows[|rows| - 1].stakeObjectId := rows[|rows| - 1].amountAtomic]
  }

  lemma {:induction false} PostedFinds(rows: seq<StakeRow>, k: nat)
    requires DistinctStakes(rows) && k < |rows|
    ensures rows[k].stakeObjectId in Posted(rows) && Posted(rows)[rows[k].stakeObjectId] == rows[k].amountAtomic
  {
    if k < |rows| - 1 {
      PostedFinds(rows[..|rows| - 1], k);
    }
  }

  /** A listed stake is one of the rows, shown net of its slashes. */
  predicate ListedFrom(stake: StakedServer, row: StakeRow, slashes: seq<Attempt>) {
    row.stakeObjectId == stake.stakeObjectId && stake.remainingStakeAtomic == Remaining(row, slashes)
  }

  predicate Listed(stake: StakedServer, rows: seq<StakeRow>, slashes: seq<Attempt>) {
    exists k :: 0 <= k < |rows| && ListedFrom(stake, rows[k], slashes)
  }

  ghost predicate ListedRight(stakes: seq<StakedServer>, rows: seq<StakeRow>, slashes: seq<Attempt>) {
    && (forall i, j | 0 <= i < j < |stakes| :: stakes[i].stakeObjectId != stakes[j].stakeObjectId)
    && (forall i | 0 <= i < |stakes| :: Listed(stakes[i], rows, slashes))
  }

  lemma {:induction false} ActiveListedRight(rows: seq<StakeRow>, slashes: seq<Attempt>)
    requires DistinctStakes(rows)
    ensures ListedRight(ActiveStakes(rows, slashes), rows, slashes)
  {
    if rows != [] {
      var n := |rows| - 1;
      ActiveListedRight(rows[..n], slashes);
      var stakes := ActiveStakes(rows[..n], slashes);
      hide LandedFor;
      hide Remaining;
      forall i | 0 <= i < |stakes|
        ensures Listed(stakes[i], rows, slashes)
      {
        assert Listed(stakes[i], rows[..n], slashes);
        var k :| 0 <= k < n && ListedFrom(stakes[i], rows[..n][k], slashes);
        assert rows[k] == rows[..n][k];
      }
    }
  }

  /** Observations of other stakes leave a stake's landed total alone. */
  lemma {:induction false} OthersLandElsewhere(before: seq<Observation>, more: seq<Observation>, id: string)
    requires forall i | 0 <= i < |more| :: more[i].stake.stakeObjectId != id
    ensures LandedFor(AttemptsOf(map[], before + more), id) == LandedFor(AttemptsOf(map[], before), id)
  {
    hide *;
    if more == [] {
      assert before + more == before;
    } else {
      var init, o := more[..|more| - 1], more[|more| - 1];
      OthersLandElsewhere(before, init, id);
      assert before + more == (before + init) + [o];
      AttemptsGrow(map[], before + init, o);
      LandedForMore(
        AttemptsOf(map[], before + init), StreakOf(FoldStreaks(map[], before + init), o.stake.stakeObjectId), o, id);
    }
  }

  /** An observation of a pass shows its stake net of everything that landed up to it. */
  lemma ObservedRight(
    rows: seq<StakeRow>, before: seq<Observation>, stakes: seq<StakedServer>, more: seq<Observation>, j: nat)
    requires DistinctStakes(rows) && ListedRight(stakes, rows, AttemptsOf(map[], before))
    requires |more| == |stakes| && (forall i | 0 <= i < |more| :: more[i].stake == stakes[i]) && j < |more|
    ensures var id := more[j].stake.stakeObjectId;
            && id in Posted(rows)
            && more[j].stake.remainingStakeAtomic
               == Posted(rows)[id] - LandedFor(AttemptsOf(map[], before + more[..j]), id)
  {
    var slashes := AttemptsOf(map[], before);
    assert Listed(stakes[j], rows, slashes);
    hide AttemptsOf;
    hide LandedFor;
    hide Posted;
    var k :| 0 <= k < |rows| && ListedFrom(stakes[j], rows[k], slashes);
    PostedFinds(rows, k);
    OthersLandElsewhere(before, more[..j], rows[k].stakeObjectId);
  }

  lemma MirroredConcat(posted: map<string, nat>, before: seq<Observation>, more: seq<Observation>)
    requires Mirrored(posted, before)
    requires forall j | 0 <= j < |more| ::
      && more[j].stake.stakeObjectId in posted
      && more[j].stake.remainingStakeAtomic
         == posted[more[j].stake.stakeObjectId]
            - LandedFor(AttemptsOf(map[], before + more[..j]), more[j].stake.stakeObjectId)
    ensures Mirrored(posted, before + more)
  {
    hide AttemptsOf;
    hide LandedFor;
    var all := before + more;
    forall i | 0 <= i < |before| ensures all[i] == before[i] && all[..i] == before[..i] {
    }
    forall i | |before| <= i < |all|
      ensures all[i] == more[i - |before|] && all[..i] == before + more[..i - |before|]
    {
    }
  }

  /** A pass over the listed stakes keeps the history an accurate mirror. */
  lemma PassMirrored(rows: seq<StakeRow>, before: seq<Observation>, p: PassInput)
    requires DistinctStakes(rows) && Mirrored(Posted(rows), before)
    ensures var stakes := ActiveStakes(rows, AttemptsOf(map[], before));
            Mirrored(Posted(rows), before + Observations(stakes, p.samples, p.attestations, p.live, p.writable))
  {
    var stakes := ActiveStakes(rows, AttemptsOf(map[], before));
    var more := Observations(stakes, p.samples, p.attestations, p.live, p.writable);
    ActiveListedRight(rows, AttemptsOf(map[], before));
    assert |more| == |stakes| && forall i | 0 <= i < |more| :: more[i].stake == stakes[i];
    hide *;
    forall j | 0 <= j < |more|
      ensures more[j].stake.stakeObjectId in Posted(rows)
      ensures more[j].stake.remainingStakeAtomic
        == Posted(rows)[more[j].stake.stakeObjectId]
           - LandedFor(AttemptsOf(map[], before + more[..j]), more[j].stake.stakeObjectId)
    {
      ObservedRight(rows, before, stakes, more, j);
    }
    MirroredConcat(Posted(rows), before, more);
  }

  lemma {:induction false} HistoryMirrored(rows: seq<StakeRow>, passes: seq<PassInput>)
    requires DistinctStakes(rows)
    ensures Mirrored(Posted(rows), History(rows, passes))
  {
    if passes != [] {
      HistoryMirrored(rows, passes[..|passes| - 1]);
      PassMirrored(rows, History(rows, passes[..|passes| - 1]), passes[|passes| - 1]);
    }
  }

  /** Any number of passes, each over the stakes the store lists: what was slashed from a stake never exceeds what was posted. */
  lemma PassesNeverOverdraw(rows: seq<StakeRow>, passes: seq<PassInput>, k: nat)
    requires DistinctStakes(rows) && k < |rows|
    ensures 0 <= LandedFor(AttemptsOf(map[], History(rows, passes)), rows[k].stakeObjectId) <= rows[k].amountAtomic
  {
    HistoryMirrored(rows, passes);
    PostedFinds(rows, k);
    SlashesNeverOverdraw(Posted(rows), History(rows, passes), rows[k].stakeObjectId);
  }
}
