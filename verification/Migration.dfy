/** The user migration: what one user's turn does, one run's totals, and grants over many runs. */
module Migration {
  import opened Common

  const ATOMIC_PER_CREDIT := 1_000_000

  /** A JavaScript number, on exact reals. */
  datatype Number = Finite(r: real) | NaN | PosInf | NegInf

  /** Err where the source throws. */
  function CreditsToAtomic(credit: Number): Result<nat, string> {
    if credit.Finite? && credit.r >= 0.0 then Ok(credit.r.Floor * ATOMIC_PER_CREDIT) else Err("invalid credit_balance")
  }

  datatype MigrationStatus = Legacy | Migrating | Migrated

  datatype LegacyUser = LegacyUser(id: string, suiAddress: Option<string>, credit: Number, status: MigrationStatus)

  datatype ResultStatus = DidMigrate | SkippedZero | SkippedDone | SkippedNoAddress | DryRun | Errored

  datatype UserResult = UserResult(userId: string, status: ResultStatus, depositAtomic: Option<nat>)

  /**
   * Where a user's turn breaks: before anything was written, before the grant, after the grant landed but before its
   * answer arrived (a throw or a crash), at the final write, or after the final write landed but before its answer arrived.
   */
  datatype Fault = NoFault | MarkMigratingFails | GrantFails | GrantLost | MarkMigratedFails | MarkMigratedLost

  /** What a user's turn writes, to the store or to the chain. */
  datatype Effect = MarkMigrating(id: string) | Grant(id: string, amount: nat) | MarkMigrated(id: string)

  /** A user's persisted status and what was granted to them on chain. */
  datatype Row = Row(status: MigrationStatus, grants: nat, granted: nat)

  predicate HasCredit(credit: Number) { credit.PosInf? || (credit.Finite? && credit.r > 0.0) }

  predicate HasAddress(a: Option<string>) { a.Some? && a.value != "" }

  predicate Eligible(u: LegacyUser) { u.status != Migrated && HasCredit(u.credit) && HasAddress(u.suiAddress) }

  /** None where the turn throws out of the run: an infinite balance passes the guards and is refused outside the try. */
  function ResultOf(u: LegacyUser, dryRun: bool, fault: Fault): Option<UserResult> {
    if u.status == Migrated then Some(UserResult(u.id, SkippedDone, None))
    else if !HasCredit(u.credit) then Some(UserResult(u.id, SkippedZero, None))
    else if !HasAddress(u.suiAddress) then Some(UserResult(u.id, SkippedNoAddress, None))
    else match CreditsToAtomic(u.credit)
      case Err(_) => None
      case Ok(deposit) =>
        Some(UserResult(u.id, if dryRun then DryRun else if fault == NoFault then DidMigrate else Errored, Some(deposit)))
  }

  /** The writes of a user's turn, in order. */
  function EffectsOf(u: LegacyUser, dryRun: bool, fault: Fault): seq<Effect> {
    if !Eligible(u) || dryRun || CreditsToAtomic(u.credit).Err? then [] else
    var deposit := CreditsToAtomic(u.credit).value;
    match fault
    case MarkMigratingFails => []
    case GrantFails => [MarkMigrating(u.id)]
    case GrantLost => [MarkMigrating(u.id), Grant(u.id, deposit)]
    case MarkMigratedFails => [MarkMigrating(u.id), Grant(u.id, deposit)]
    case _ => [MarkMigrating(u.id), Grant(u.id, deposit), MarkMigrated(u.id)]
  }

  function RowOf(rows: map<string, Row>, id: string): Row { if id in rows then rows[id] else Row(Legacy, 0, 0) }

  /** `durable`: the store the run writes to is the one the next run reads from. */
  function RowAfter(r: Row, e: Effect, durable: bool): Row {
    match e
    case MarkMigrating(_) => if durable then r.(status := Migrating) else r
    case Grant(_, amount) => r.(grants := r.grants + 1, granted := r.granted + amount)
    case MarkMigrated(_) => if durable then r.(status := Migrated) else r
  }

  function Applied(rows: map<string, Row>, e: Effect, durable: bool): map<string, Row> {
    rows[e.id := RowAfter(RowOf(rows, e.id), e, durable)]
  }

  function ApplyAll(rows: map<string, Row>, es: seq<Effect>, durable: bool): map<string, Row> {
    if es == [] then rows else Applied(ApplyAll(rows, es[..|es| - 1], durable), es[|es| - 1], durable)
  }

  // ----- one run -----

  class Backend {
    const durable: bool
    var rows: map<string, Row>

    constructor (durable: bool, rows: map<string, Row>)
      ensures this.durable == durable && this.rows == rows
    {
      this.durable, this.rows := durable, rows;
    }

    method Do(e: Effect)
      modifies this
      ensures rows == Applied(old(rows), e, durable)
    {
      rows := rows[e.id := RowAfter(RowOf(rows, e.id), e, durable)];
    }
  }

  lemma ApplyNone(rows: map<string, Row>, durable: bool)
    ensures ApplyAll(rows, [], durable) == rows
  {
  }

  lemma ApplyOne(rows: map<string, Row>, es: seq<Effect>, e: Effect, durable: bool)
    ensures ApplyAll(rows, es + [e], durable) == Applied(ApplyAll(rows, es, durable), e, durable)
  {
    assert (es + [e])[..|es|] == es;
  }

  lemma {:induction false} ApplyConcat(rows: map<string, Row>, a: seq<Effect>, b: seq<Effect>, durable: bool)
    ensures ApplyAll(rows, a + b, durable) == ApplyAll(ApplyAll(rows, a, durable), b, durable)
  {
    if b == [] {
      assert a + b == a;
    } else {
      ApplyConcat(rows, a, b[..|b| - 1], durable);
      assert (a + b)[..|a + b| - 1] == a + b[..|b| - 1];
    }
  }

  /** The writes a turn can make, one after the other. */
  lemma ApplyPrefixes(rows: map<string, Row>, a: Effect, b: Effect, c: Effect, durable: bool)
    ensures ApplyAll(rows, [], durable) == rows
    ensures ApplyAll(rows, [a], durable) == Applied(rows, a, durable)
    ensures ApplyAll(rows, [a, b], durable) == Applied(Applied(rows, a, durable), b, durable)
    ensures ApplyAll(rows, [a, b, c], durable) == Applied(Applied(Applied(rows, a, durable), b, durable), c, durable)
  {
    assert [] + [a] == [a] && [a] + [b] == [a, b] && [a, b] + [c] == [a, b, c];
    ApplyOne(rows, [], a, durable);
    ApplyOne(rows, [a], b, durable);
    ApplyOne(rows, [a, b], c, durable);
  }

  /** One user's turn; None where it throws. */
  method MigrateUser(u: LegacyUser, backend: Backend, dryRun: bool, fault: Fault) returns (r: Option<UserResult>)
    modifies backend
    ensures r == ResultOf(u, dryRun, fault)
    ensures backend.rows == ApplyAll(old(backend.rows), EffectsOf(u, dryRun, fault), backend.durable)
  {
    hide ApplyAll;
    hide Applied;
    ApplyNone(backend.rows, backend.durable);
    if u.status == Migrated {
      return Some(UserResult(u.id, SkippedDone, None));
    }
    if !HasCredit(u.credit) {
      return Some(UserResult(u.id, SkippedZero, None));
    }
    if !HasAddress(u.suiAddress) {
      return Some(UserResult(u.id, SkippedNoAddress, None));
    }
    var deposit := CreditsToAtomic(u.credit);
    if deposit.Err? {
      return None;
    }
    if dryRun {
      return Some(UserResult(u.id, DryRun, Some(deposit.value)));
    }
    var failed := Some(UserResult(u.id, Errored, Some(deposit.value)));
    ApplyPrefixes(backend.rows, MarkMigrating(u.id), Grant(u.id, deposit.value), MarkMigrated(u.id), backend.durable);
    if fault == MarkMigratingFails {
      return failed;
    }
    backend.Do(MarkMigrating(u.id));
    if fault == GrantFails {
      return failed;
    }
    backend.Do(Grant(u.id, deposit.value));
    if fault == GrantLost || fault == MarkMigratedFails {
      return failed;
    }
    backend.Do(MarkMigrated(u.id));
    if fault == MarkMigratedLost {
      return failed;
    }
    r := Some(UserResult(u.id, DidMigrate, Some(deposit.value)));
  }

  function Count(rs: seq<UserResult>, s: ResultStatus): nat {
    if rs == [] then 0 else Count(rs[..|rs| - 1], s) + (if rs[|rs| - 1].status == s then 1 else 0)
  }

  function GrantedTotal(rs: seq<UserResult>): nat {
    if rs == [] then 0 else
    var r := rs[|rs| - 1];
    GrantedTotal(rs[..|rs| - 1]) + (if r.status == DidMigrate && r.depositAtomic.Some? then r.depositAtomic.value else 0)
  }

  datatype Totals = Totals(
    considered: nat, migrated: nat, skippedZero: nat, skippedDone: nat, skippedNoAddress: nat, errors: nat,
    totalAtomicGranted: nat)

  function TotalsOf(rs: seq<UserResult>): Totals {
    Totals(
      |rs|, Count(rs, DidMigrate), Count(rs, SkippedZero), Count(rs, SkippedDone), Count(rs, SkippedNoAddress),
      Count(rs, Errored), GrantedTotal(rs))
  }

  function RunEffects(users: seq<LegacyUser>, dryRun: bool, faults: seq<Fault>): seq<Effect>
    requires |faults| == |users|
  {
    if users == [] then [] else
    var n := |users| - 1;
    RunEffects(users[..n], dryRun, faults[..n]) + EffectsOf(users[n], dryRun, faults[n])
  }

  lemma NoEffectsYet(rows: map<string, Row>, dryRun: bool, durable: bool)
    ensures ApplyAll(rows, RunEffects([], dryRun, []), durable) == rows
  {
  }

  lemma EffectsGrow(
    rows: map<string, Row>, users: seq<LegacyUser>, dryRun: bool, faults: seq<Fault>, i: nat, durable: bool)
    requires |faults| == |users| && i < |users|
    ensures ApplyAll(rows, RunEffects(users[..i + 1], dryRun, faults[..i + 1]), durable)
         == ApplyAll(ApplyAll(rows, RunEffects(users[..i], dryRun, faults[..i]), durable),
                     EffectsOf(users[i], dryRun, faults[i]), durable)
  {
    assert users[..i + 1][..i] == users[..i] && faults[..i + 1][..i] == faults[..i];
    ApplyConcat(rows, RunEffects(users[..i], dryRun, faults[..i]), EffectsOf(users[i], dryRun, faults[i]), durable);
  }

  lemma ThrowWritesNothing(rows: map<string, Row>, u: LegacyUser, dryRun: bool, fault: Fault, durable: bool)
    requires ResultOf(u, dryRun, fault).None?
    ensures EffectsOf(u, dryRun, fault) == [] && forall r :: ApplyAll(r, [], durable) == r
  {
  }

  /** The run as one worker makes it, one user after the other; None where a turn throws out of it. */
  method RunInOrder(users: seq<LegacyUser>, backend: Backend, dryRun: bool, faults: seq<Fault>)
    returns (results: Option<seq<UserResult>>, totals: Totals)
    requires |faults| == |users|
    modifies backend
    ensures results.Some? <==> forall i | 0 <= i < |users| :: ResultOf(users[i], dryRun, faults[i]).Some?
    ensures results.Some? ==>
      && |results.value| == |users|
      && (forall i | 0 <= i < |users| :: ResultOf(users[i], dryRun, faults[i]) == Some(results.value[i]))
      && totals == TotalsOf(results.value)
      && backend.rows == ApplyAll(old(backend.rows), RunEffects(users, dryRun, faults), backend.durable)
    ensures results.None? ==> exists i ::
      && 0 <= i < |users| && ResultOf(users[i], dryRun, faults[i]).None?
      && backend.rows == ApplyAll(old(backend.rows), RunEffects(users[..i], dryRun, faults[..i]), backend.durable)
  {
    hide *;
    var rs: seq<UserResult> := [];
    ghost var rows := backend.rows;
    NoEffectsYet(rows, dryRun, backend.durable);
    for i := 0 to |users|
      invariant |rs| == i
      invariant forall j | 0 <= j < i :: ResultOf(users[j], dryRun, faults[j]) == Some(rs[j])
      invariant backend.rows == ApplyAll(rows, RunEffects(users[..i], dryRun, faults[..i]), backend.durable)
    {
      EffectsGrow(rows, users, dryRun, faults, i, backend.durable);
      var r := MigrateUser(users[i], backend, dryRun, faults[i]);
      if r.None? {
        ThrowWritesNothing(rows, users[i], dryRun, faults[i], backend.durable);
        return None, Totals(0, 0, 0, 0, 0, 0, 0);
      }
      rs := rs + [r.value];
    }
    assert users[..|users|] == users && faults[..|users|] == faults;
    results, totals := Some(rs), TotalsOf(rs);
  }

  // ----- one run's totals -----

  function WholeCredits(u: LegacyUser): nat {
    if u.credit.Finite? && u.credit.r >= 0.0 then u.credit.r.Floor else 0
  }

  /** Whole credits of the users a list of results reports as migrated. */
  function MigratedCredits(users: seq<LegacyUser>, rs: seq<UserResult>): nat
    requires |users| == |rs|
  {
    if users == [] then 0 else
    var n := |users| - 1;
    MigratedCredits(users[..n], rs[..n])
      + (if rs[n].status == DidMigrate then WholeCredits(users[n]) else 0)
  }

  lemma ResultFacts(u: LegacyUser, dryRun: bool, fault: Fault, r: UserResult)
    requires ResultOf(u, dryRun, fault) == Some(r)
    ensures r.status == DidMigrate ==> r.depositAtomic == Some(ATOMIC_PER_CREDIT * WholeCredits(u))
    ensures dryRun ==> r.status != DidMigrate && r.status != Errored
    ensures !dryRun ==> r.status != DryRun
  {
  }

  /** What a turn reports, from the user's side. */
  lemma ResultMeans(u: LegacyUser, dryRun: bool, fault: Fault)
    ensures var r := ResultOf(u, dryRun, fault);
            var open := u.status != Migrated;
            var paid := u.credit == PosInf || (u.credit.Finite? && u.credit.r > 0.0);
            var reachable := u.suiAddress.Some? && u.suiAddress.value != "";
            var turns := open && paid && reachable;
            && (r.None? <==> turns && u.credit == PosInf)
            && (r.Some? ==>
              && r.value.userId == u.id
              && (r.value.status == SkippedDone <==> !open)
              && (r.value.status == SkippedZero <==> open && !paid)
              && (r.value.status == SkippedNoAddress <==> open && paid && !reachable)
              && (r.value.status == DryRun <==> turns && dryRun)
              && (r.value.status == Errored <==> turns && !dryRun && fault != NoFault)
              && (r.value.status == DidMigrate <==> turns && !dryRun && fault == NoFault)
              && r.value.depositAtomic == if turns then Some(1_000_000 * u.credit.r.Floor) else None)
  {
  }

  /** Only a finite, non-negative balance converts. */
  lemma CreditsConvertIff(credit: Number)
    ensures CreditsToAtomic(credit).Ok? <==> credit.Finite? && credit.r >= 0.0
    ensures CreditsToAtomic(credit).Ok? ==>
      && CreditsToAtomic(credit).value % 1_000_000 == 0
      && (CreditsToAtomic(credit).value / 1_000_000) as real <= credit.r < (CreditsToAtomic(credit).value / 1_000_000 + 1) as real
  {
  }

  function CountTurns(users: seq<LegacyUser>, faults: seq<Fault>, p: (LegacyUser, Fault) -> bool): nat
    requires |faults| == |users|
  {
    if users == [] then 0 else
    var n := |users| - 1;
    CountTurns(users[..n], faults[..n], p) + (if p(users[n], faults[n]) then 1 else 0)
  }

  lemma {:induction false} CountIsTurns(
    users: seq<LegacyUser>, dryRun: bool, faults: seq<Fault>, rs: seq<UserResult>, s: ResultStatus,
    p: (LegacyUser, Fault) -> bool)
    requires |faults| == |users| == |rs|
    requires forall i | 0 <= i < |users| :: ResultOf(users[i], dryRun, faults[i]) == Some(rs[i])
    requires forall i | 0 <= i < |users| :: rs[i].status == s <==> p(users[i], faults[i])
    ensures Count(rs, s) == CountTurns(users, faults, p)
  {
    hide ResultOf;
    if users != [] {
      var n := |users| - 1;
      CountIsTurns(users[..n], dryRun, faults[..n], rs[..n], s, p);
    }
  }

  /** The statuses a user's own columns allow. */
  predicate ResultMeansFor(u: LegacyUser, dryRun: bool, f: Fault, r: UserResult) {
    && (r.status == SkippedDone <==> u.status == Migrated)
    && (r.status == SkippedZero <==> u.status != Migrated && !HasCredit(u.credit))
    && (r.status == SkippedNoAddress <==> u.status != Migrated && HasCredit(u.credit) && !HasAddress(u.suiAddress))
    && (r.status == DidMigrate <==> Eligible(u) && !dryRun && f == NoFault)
    && (r.status == Errored <==> Eligible(u) && !dryRun && f != NoFault)
  }

  lemma StatusMeans(u: LegacyUser, dryRun: bool, f: Fault, r: UserResult)
    requires ResultOf(u, dryRun, f) == Some(r)
    ensures ResultMeansFor(u, dryRun, f, r)
  {
  }

  /** Each of a run's counts is the number of users it is about. */
  lemma TotalsCountUsers(users: seq<LegacyUser>, dryRun: bool, faults: seq<Fault>, rs: seq<UserResult>)
    requires |faults| == |users| == |rs|
    requires forall i | 0 <= i < |users| :: ResultOf(users[i], dryRun, faults[i]) == Some(rs[i])
    ensures var t := TotalsOf(rs);
            && t.considered == |users|
            && t.skippedDone == CountTurns(users, faults, (u: LegacyUser, f: Fault) => u.status == Migrated)
            && t.skippedZero == CountTurns(users, faults, (u: LegacyUser, f: Fault) => u.status != Migrated && !HasCredit(u.credit))
            && t.skippedNoAddress == CountTurns(
                 users, faults, (u: LegacyUser, f: Fault) => u.status != Migrated && HasCredit(u.credit) && !HasAddress(u.suiAddress))
            && t.migrated == CountTurns(users, faults, (u: LegacyUser, f: Fault) => Eligible(u) && !dryRun && f == NoFault)
            && t.errors == CountTurns(users, faults, (u: LegacyUser, f: Fault) => Eligible(u) && !dryRun && f != NoFault)
  {
    hide ResultOf;
    forall i | 0 <= i < |users| ensures ResultMeansFor(users[i], dryRun, faults[i], rs[i]) {
      StatusMeans(users[i], dryRun, faults[i], rs[i]);
    }
    CountIsTurns(users, dryRun, faults, rs, SkippedDone, (u: LegacyUser, f: Fault) => u.status == Migrated);
    CountIsTurns(
      users, dryRun, faults, rs, SkippedZero, (u: LegacyUser, f: Fault) => u.status != Migrated && !HasCredit(u.credit));
    CountIsTurns(
      users, dryRun, faults, rs, SkippedNoAddress,
      (u: LegacyUser, f: Fault) => u.status != Migrated && HasCredit(u.credit) && !HasAddress(u.suiAddress));
    CountIsTurns(
      users, dryRun, faults, rs, DidMigrate, (u: LegacyUser, f: Fault) => Eligible(u) && !dryRun && f == NoFault);
    CountIsTurns(
      users, dryRun, faults, rs, Errored, (u: LegacyUser, f: Fault) => Eligible(u) && !dryRun && f != NoFault);
  }

  /** Every result has one status, so the counts partition the users; the total is 10^6 times the floored credits. */
  lemma {:induction false} TotalsAddUp(users: seq<LegacyUser>, dryRun: bool, faults: seq<Fault>, rs: seq<UserResult>)
    requires |faults| == |users| == |rs|
    requires forall i | 0 <= i < |users| :: ResultOf(users[i], dryRun, faults[i]) == Some(rs[i])
    ensures var t := TotalsOf(rs);
            && t.migrated + t.skippedZero + t.skippedDone + t.skippedNoAddress + t.errors + Count(rs, DryRun) == t.considered
            && (dryRun ==> t.migrated == 0 && t.errors == 0)
            && (!dryRun ==> Count(rs, DryRun) == 0)
            && t.totalAtomicGranted == ATOMIC_PER_CREDIT * MigratedCredits(users, rs)
  {
    hide ResultOf;
    hide WholeCredits;
    hide HasCredit;
    hide HasAddress;
    hide Count;
    CountsSnoc(rs);
    if users != [] {
      var n := |users| - 1;
      TotalsAddUp(users[..n], dryRun, faults[..n], rs[..n]);
      ResultFacts(users[n], dryRun, faults[n], rs[n]);
    }
  }

  lemma CountsSnoc(rs: seq<UserResult>)
    ensures rs == [] ==> forall s :: Count(rs, s) == 0
    ensures rs != [] ==> forall s ::
      Count(rs, s) == Count(rs[..|rs| - 1], s) + (if rs[|rs| - 1].status == s then 1 else 0)
  {
  }

  /** A user with an infinite balance and an address: the balance passes the guards and is refused outside the try. */
  lemma InfiniteBalanceThrows(dryRun: bool, fault: Fault)
    ensures ResultOf(LegacyUser("u", Some("0x1"), PosInf, Legacy), dryRun, fault).None?
  {
  }

  /** A run is refused as a whole exactly when some user with an infinite balance and an address is still to be migrated. */
  lemma RunRejectsIff(users: seq<LegacyUser>, dryRun: bool, faults: seq<Fault>)
    requires |faults| == |users|
    ensures (exists i :: 0 <= i < |users| && ResultOf(users[i], dryRun, faults[i]).None?)
       <==> (exists i :: 0 <= i < |users| && Eligible(users[i]) && users[i].credit.PosInf?)
  {
    assert forall i | 0 <= i < |users| ::
      ResultOf(users[i], dryRun, faults[i]).None? <==> Eligible(users[i]) && users[i].credit.PosInf?;
  }

  // ----- interleaved turns of different users -----

  function Project(es: seq<Effect>, id: string): seq<Effect> {
    if es == [] then [] else Project(es[..|es| - 1], id) + (if es[|es| - 1].id == id then [es[|es| - 1]] else [])
  }

  lemma {:induction false} RowNeedsOwnEffects(rows: map<string, Row>, es: seq<Effect>, id: string, durable: bool)
    ensures RowOf(ApplyAll(rows, es, durable), id) == RowOf(ApplyAll(rows, Project(es, id), durable), id)
  {
    if es != [] {
      var init, e := es[..|es| - 1], es[|es| - 1];
      RowNeedsOwnEffects(rows, init, id, durable);
      if e.id == id {
        ApplyOne(rows, Project(init, id), e, durable);
      } else {
        assert Project(init, id) + [] == Project(init, id);
      }
    }
  }

  /** However the turns of different users interleave, each user's row comes out the same. */
  lemma InterleavingIrrelevant(rows: map<string, Row>, a: seq<Effect>, b: seq<Effect>, id: string, durable: bool)
    requires Project(a, id) == Project(b, id)
    ensures RowOf(ApplyAll(rows, a, durable), id) == RowOf(ApplyAll(rows, b, durable), id)
  {
    RowNeedsOwnEffects(rows, a, id, durable);
    RowNeedsOwnEffects(rows, b, id, durable);
  }

  // ----- one user over many runs -----

  /** One run as a single user meets it; address and balance may differ from run to run. */
  datatype Turn = Turn(suiAddress: Option<string>, credit: Number, dryRun: bool, fault: Fault)

  /** The user as a run lists them: a durable store shows the status the runs before left. */
  function Listed(id: string, t: Turn, r: Row): LegacyUser { LegacyUser(id, t.suiAddress, t.credit, r.status) }

  function TurnEffects(id: string, t: Turn, r: Row): seq<Effect> { EffectsOf(Listed(id, t, r), t.dryRun, t.fault) }

  function AfterTurn(id: string, r: Row, t: Turn, durable: bool): Row {
    RowOf(ApplyAll(map[id := r], TurnEffects(id, t, r), durable), id)
  }

  function AfterTurns(id: string, r: Row, ts: seq<Turn>, durable: bool): Row {
    if ts == [] then r else AfterTurn(id, AfterTurns(id, r, ts[..|ts| - 1], durable), ts[|ts| - 1], durable)
  }

  /** The turn's final write completed. */
  predicate Completes(id: string, r: Row, t: Turn) { MarkMigrated(id) in TurnEffects(id, t, r) }

  /** The grant landed but the final write did not complete. */
  predicate Loses(id: string, r: Row, t: Turn) { |TurnEffects(id, t, r)| == 2 }

  function CountCompleted(id: string, r: Row, ts: seq<Turn>, durable: bool): nat {
    if ts == [] then 0 else
    var n := |ts| - 1;
    CountCompleted(id, r, ts[..n], durable) + (if Completes(id, AfterTurns(id, r, ts[..n], durable), ts[n]) then 1 else 0)
  }

  function CountLost(id: string, r: Row, ts: seq<Turn>, durable: bool): nat {
    if ts == [] then 0 else
    var n := |ts| - 1;
    CountLost(id, r, ts[..n], durable) + (if Loses(id, AfterTurns(id, r, ts[..n], durable), ts[n]) then 1 else 0)
  }

  /** What one turn does to a user's row. */
  lemma TurnFacts(id: string, r: Row, t: Turn, durable: bool)
    ensures var a := AfterTurn(id, r, t, durable);
            && a.grants == r.grants + (if Completes(id, r, t) || Loses(id, r, t) then 1 else 0)
            && !(Completes(id, r, t) && Loses(id, r, t))
            && (r.status == Migrated ==> a == r && !Completes(id, r, t) && !Loses(id, r, t))
            && (durable && r.status != Migrated ==> (Completes(id, r, t) <==> a.status == Migrated))
  {
    var u := Listed(id, t, r);
    var deposit := if CreditsToAtomic(u.credit).Ok? then CreditsToAtomic(u.credit).value else 0;
    var a, b, c := MarkMigrating(id), Grant(id, deposit), MarkMigrated(id);
    ApplyPrefixes(map[id := r], a, b, c, durable);
    var es := TurnEffects(id, t, r);
    assert es == [] || es == [a] || es == [a, b] || es == [a, b, c];
    assert c in [a, b, c] && c !in [a, b] && c !in [a];
  }

  /** The row a turn leaves, field by field: a turn that grants adds 1,000,000 times the user's whole credits. */
  lemma TurnRow(id: string, r: Row, t: Turn, durable: bool)
    ensures var tries := r.status != Migrated && !t.dryRun && t.suiAddress.Some? && t.suiAddress.value != ""
                         && t.credit.Finite? && t.credit.r > 0.0;
            var wrote := tries && t.fault != MarkMigratingFails;
            var granted := wrote && t.fault != GrantFails;
            var closed := granted && t.fault != GrantLost && t.fault != MarkMigratedFails;
            AfterTurn(id, r, t, durable) == Row(
              if !durable || !wrote then r.status else if closed then Migrated else Migrating,
              r.grants + (if granted then 1 else 0),
              r.granted + (if granted then 1_000_000 * t.credit.r.Floor else 0))
  {
    var u := Listed(id, t, r);
    var deposit := if CreditsToAtomic(u.credit).Ok? then CreditsToAtomic(u.credit).value else 0;
    var a, b, c := MarkMigrating(id), Grant(id, deposit), MarkMigrated(id);
    ApplyPrefixes(map[id := r], a, b, c, durable);
    var es := TurnEffects(id, t, r);
    assert es == [] || es == [a] || es == [a, b] || es == [a, b, c];
  }

  /**
   * Over any number of runs on a durable store: grants are the completed turns plus the turns that lost their answer,
   * and at most one turn completes, after which the user is never granted again.
   */
  lemma {:induction false} GrantsBounded(id: string, r: Row, ts: seq<Turn>)
    requires r.grants == 0 && r.status != Migrated
    ensures var a := AfterTurns(id, r, ts, true);
            && a.grants == CountCompleted(id, r, ts, true) + CountLost(id, r, ts, true)
            && CountCompleted(id, r, ts, true) == (if a.status == Migrated then 1 else 0)
            && a.grants <= 1 + CountLost(id, r, ts, true)
  {
    if ts != [] {
      var n := |ts| - 1;
      GrantsBounded(id, r, ts[..n]);
      TurnFacts(id, AfterTurns(id, r, ts[..n], true), ts[n], true);
    }
  }

  /** A user whose final write completed is granted nothing by any later run. */
  lemma {:induction false} NeverGrantedAgain(id: string, r: Row, ts: seq<Turn>, durable: bool)
    requires r.status == Migrated
    ensures AfterTurns(id, r, ts, durable) == r
  {
    if ts != [] {
      NeverGrantedAgain(id, r, ts[..|ts| - 1], durable);
      TurnFacts(id, r, ts[|ts| - 1], durable);
    }
  }

  /** A turn that grants, when the status it lists is not migrated: an eligible user, no dry run, and the grant landed. */
  predicate GrantsNow(t: Turn) {
    && !t.dryRun && HasAddress(t.suiAddress) && t.credit.Finite? && t.credit.r > 0.0
    && t.fault != MarkMigratingFails && t.fault != GrantFails
  }

  function CountGrants(ts: seq<Turn>): nat {
    if ts == [] then 0 else CountGrants(ts[..|ts| - 1]) + (if GrantsNow(ts[|ts| - 1]) then 1 else 0)
  }

  lemma GrantsNowIff(id: string, r: Row, t: Turn)
    requires r.status != Migrated
    ensures Completes(id, r, t) || Loses(id, r, t) <==> GrantsNow(t)
  {
    var es := TurnEffects(id, t, r);
    if GrantsNow(t) && |es| == 3 {
      assert es[2] == MarkMigrated(id) && es[2] in es;
    }
  }

  lemma VolatileKeepsStatus(id: string, r: Row, t: Turn)
    ensures AfterTurn(id, r, t, false).status == r.status
  {
    var u := Listed(id, t, r);
    var deposit := if CreditsToAtomic(u.credit).Ok? then CreditsToAtomic(u.credit).value else 0;
    var a, b, c := MarkMigrating(id), Grant(id, deposit), MarkMigrated(id);
    ApplyPrefixes(map[id := r], a, b, c, false);
    var es := TurnEffects(id, t, r);
    assert es == [] || es == [a] || es == [a, b] || es == [a, b, c];
  }

  /** Over any number of runs on a store that keeps nothing, every turn that can grant does. */
  lemma {:induction false} VolatileGrants(id: string, r: Row, ts: seq<Turn>)
    requires r.status != Migrated
    ensures AfterTurns(id, r, ts, false).grants == r.grants + CountGrants(ts)
    ensures AfterTurns(id, r, ts, false).status == r.status
  {
    hide AfterTurn;
    hide Completes;
    hide Loses;
    if ts != [] {
      var n := |ts| - 1;
      VolatileGrants(id, r, ts[..n]);
      var before := AfterTurns(id, r, ts[..n], false);
      TurnFacts(id, before, ts[n], false);
      GrantsNowIff(id, before, ts[n]);
      VolatileKeepsStatus(id, before, ts[n]);
    }
  }

  /**
   * Over all turn lists: the bound "at most one grant, plus one per lost answer" holds exactly when the next run reads
   * what this one wrote. The script's JSON source with its no-op store does not.
   */
  lemma RerunBoundIffDurable(id: string, r: Row, durable: bool)
    requires r.grants == 0 && r.status != Migrated
    ensures (forall ts :: AfterTurns(id, r, ts, durable).grants <= 1 + CountLost(id, r, ts, durable)) <==> durable
  {
    if durable {
      forall ts ensures AfterTurns(id, r, ts, durable).grants <= 1 + CountLost(id, r, ts, durable) {
        GrantsBounded(id, r, ts);
      }
    } else {
      var t := Turn(Some("0x1"), Finite(1.0), false, NoFault);
      CleanRerun(id, r, t);
    }
  }

  lemma CleanRerun(id: string, r: Row, t: Turn)
    requires r.grants == 0 && r.status != Migrated && GrantsNow(t) && t.fault == NoFault
    ensures AfterTurns(id, r, [t, t], false).grants == 2 && CountLost(id, r, [t, t], false) == 0
  {
    assert [t, t][..1] == [t] && [t][..0] == [];
    VolatileGrants(id, r, [t, t]);
    VolatileGrants(id, r, [t]);
    assert CountGrants([t]) == 1 && CountGrants([t, t]) == 2;
    var once := AfterTurns(id, r, [t], false);
    assert |TurnEffects(id, t, once)| == 3 && |TurnEffects(id, t, r)| == 3;
    assert CountLost(id, r, [t], false) == 0;
  }
}
