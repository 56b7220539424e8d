/** The bootstrap subsidy ledger: one grant per address, a budget per month. */
module Subsidies {
  import opened Common

  datatype SubsidyConfig = SubsidyConfig(perUserAtomic: int, monthlyBudgetAtomic: int)

  datatype Decision = Approved(amountAtomic: int, remaining: int) | AlreadyGranted(remaining: int) | BudgetExhausted(remaining: int)

  datatype Ledger = Ledger(granted: set<string>, spentByMonth: map<string, int>)

  /** The calendar month of a request, as the source prints it. */
  datatype Request = Request(address: string, month: string)

  function SpentIn(l: Ledger, month: string): int { if month in l.spentByMonth then l.spentByMonth[month] else 0 }

  function Decide(l: Ledger, cfg: SubsidyConfig, r: Request): (Ledger, Decision) {
    var remaining := cfg.monthlyBudgetAtomic - SpentIn(l, r.month);
    if r.address in l.granted then (l, AlreadyGranted(remaining))
    else if cfg.perUserAtomic > remaining then (l, BudgetExhausted(remaining))
    else
      (Ledger(l.granted + {r.address}, l.spentByMonth[r.month := SpentIn(l, r.month) + cfg.perUserAtomic]),
       Approved(cfg.perUserAtomic, remaining - cfg.perUserAtomic))
  }

  class SubsidyLedger {
    const cfg: SubsidyConfig
    var granted: set<string>
    var spentByMonth: map<string, int>

    function State(): Ledger
      reads this
    {
      Ledger(granted, spentByMonth)
    }

    constructor (cfg: SubsidyConfig)
      ensures this.cfg == cfg && State() == Ledger({}, map[])
    {
      this.cfg := cfg;
      granted, spentByMonth := {}, map[];
    }

    method RequestGrant(r: Request) returns (d: Decision)
      modifies this
      ensures (State(), d) == Decide(old(State()), cfg, r)
    {
      var spent := if r.month in spentByMonth then spentByMonth[r.month] else 0;
      var remaining := cfg.monthlyBudgetAtomic - spent;
      if r.address in granted {
        return AlreadyGranted(remaining);
      }
      if cfg.perUserAtomic > remaining {
        return BudgetExhausted(remaining);
      }
      granted := granted + {r.address};
      spentByMonth := spentByMonth[r.month := spent + cfg.perUserAtomic];
      d := Approved(cfg.perUserAtomic, remaining - cfg.perUserAtomic);
    }
  }

  // ----- every request sequence -----

  function RunAll(l: Ledger, cfg: SubsidyConfig, rs: seq<Request>): (Ledger, seq<Decision>) {
    if rs == [] then (l, []) else
    var (l1, ds) := RunAll(l, cfg, rs[..|rs| - 1]);
    var (l2, d) := Decide(l1, cfg, rs[|rs| - 1]);
    (l2, ds + [d])
  }

  ghost function Sum(m: map<string, int>): int {
    if m == map[] then 0 else
    var k :| k in m;
    m[k] + Sum(m - {k})
  }

  lemma {:induction false} SumRemove(m: map<string, int>, k: string)
    requires k in m
    ensures Sum(m) == m[k] + Sum(m - {k})
    decreases |m|
  {
    var j :| j in m && Sum(m) == m[j] + Sum(m - {j});
    if j != k {
      SumRemove(m - {j}, k);
      SumRemove(m - {k}, j);
      assert m - {j} - {k} == m - {k} - {j};
    }
  }

  lemma SumUpdate(m: map<string, int>, k: string, v: int)
    ensures Sum(m[k := v]) == Sum(m) + v - (if k in m then m[k] else 0)
  {
    SumRemove(m[k := v], k);
    assert m[k := v] - {k} == m - {k};
    if k in m {
      SumRemove(m, k);
    } else {
      assert m - {k} == m;
    }
  }

  /** The addresses of the requests that were approved, in order. */
  function ApprovedOf(rs: seq<Request>, ds: seq<Decision>): seq<string>
    requires |rs| == |ds|
  {
    if rs == [] then [] else
    var n := |rs| - 1;
    ApprovedOf(rs[..n], ds[..n]) + (if ds[n].Approved? then [rs[n].address] else [])
  }

  predicate Distinct(s: seq<string>) { forall i, j | 0 <= i < j < |s| :: s[i] != s[j] }

  ghost predicate Conserved(cfg: SubsidyConfig, l: Ledger, approved: seq<string>) {
    && Sum(l.spentByMonth) == cfg.perUserAtomic * |l.granted|
    && (forall m | m in l.spentByMonth :: l.spentByMonth[m] <= cfg.monthlyBudgetAtomic)
    && Distinct(approved) && |approved| == |l.granted|
    && (forall a :: a in approved <==> a in l.granted)
  }

  lemma ApprovedOnce(approved: seq<string>, granted: set<string>, a: string)
    requires Distinct(approved) && |approved| == |granted| && (forall x :: x in approved <==> x in granted)
    requires a !in granted
    ensures Distinct(approved + [a]) && |approved + [a]| == |granted + {a}| == |granted| + 1
    ensures forall x :: x in approved + [a] <==> x in granted + {a}
  {
    assert a !in approved;
    forall i | 0 <= i < |approved| ensures approved[i] != a {
      assert approved[i] in approved;
    }
  }

  lemma MoneyPerGrant(perUser: int, n: int)
    ensures perUser * (n + 1) == perUser * n + perUser
  {
  }

  lemma DecideConserves(cfg: SubsidyConfig, l: Ledger, approved: seq<string>, r: Request)
    requires Conserved(cfg, l, approved)
    ensures var (l1, d) := Decide(l, cfg, r);
            Conserved(cfg, l1, approved + (if d.Approved? then [r.address] else []))
  {
    hide Sum;
    hide Distinct;
    var (l1, d) := Decide(l, cfg, r);
    if d.Approved? {
      SumUpdate(l.spentByMonth, r.month, SpentIn(l, r.month) + cfg.perUserAtomic);
      ApprovedOnce(approved, l.granted, r.address);
      MoneyPerGrant(cfg.perUserAtomic, |l.granted|);
    } else {
      assert approved + [] == approved;
    }
  }

  /**
   * Over every request sequence: money spent is the per-user grant times the number of granted addresses,
   * no month goes over budget, and no address is approved twice.
   */
  lemma {:induction false} SubsidyConserved(cfg: SubsidyConfig, rs: seq<Request>)
    ensures var (l, ds) := RunAll(Ledger({}, map[]), cfg, rs);
            |ds| == |rs| && Conserved(cfg, l, ApprovedOf(rs, ds))
  {
    if rs != [] {
      var n := |rs| - 1;
      SubsidyConserved(cfg, rs[..n]);
      var (l1, ds) := RunAll(Ledger({}, map[]), cfg, rs[..n]);
      DecideConserves(cfg, l1, ApprovedOf(rs[..n], ds), rs[n]);
      var (l2, d) := Decide(l1, cfg, rs[n]);
      assert (ds + [d])[..n] == ds;
    }
  }

  // ----- every decision, from the decisions before it -----

  /** How many requests of a month were approved. */
  function ApprovedIn(rs: seq<Request>, ds: seq<Decision>, month: string): nat
    requires |rs| == |ds|
  {
    if rs == [] then 0 else
    var n := |rs| - 1;
    ApprovedIn(rs[..n], ds[..n], month) + (if rs[n].month == month && ds[n].Approved? then 1 else 0)
  }

  function RequestsIn(rs: seq<Request>, month: string): nat {
    if rs == [] then 0 else
    var n := |rs| - 1;
    RequestsIn(rs[..n], month) + (if rs[n].month == month then 1 else 0)
  }

  /** The answer to a request whose month has had `k` approvals, for an address approved before or not. */
  predicate Answers(cfg: SubsidyConfig, k: nat, before: bool, d: Decision) {
    var left := cfg.monthlyBudgetAtomic - cfg.perUserAtomic * k;
    && (before ==> d == AlreadyGranted(left))
    && (!before && cfg.perUserAtomic * (k + 1) <= cfg.monthlyBudgetAtomic ==>
          d == Approved(cfg.perUserAtomic, cfg.monthlyBudgetAtomic - cfg.perUserAtomic * (k + 1)))
    && (!before && cfg.perUserAtomic * (k + 1) > cfg.monthlyBudgetAtomic ==> d == BudgetExhausted(left))
  }

  lemma RunSnoc(cfg: SubsidyConfig, rs: seq<Request>)
    requires rs != []
    ensures var n := |rs| - 1;
            var (l, ds) := RunAll(Ledger({}, map[]), cfg, rs[..n]);
            var (l1, d) := Decide(l, cfg, rs[n]);
            RunAll(Ledger({}, map[]), cfg, rs) == (l1, ds + [d])
  {
  }

  lemma DecideSpends(cfg: SubsidyConfig, l: Ledger, r: Request, month: string)
    ensures var (l1, d) := Decide(l, cfg, r);
            SpentIn(l1, month) == SpentIn(l, month) + (if r.month == month && d.Approved? then cfg.perUserAtomic else 0)
  {
  }

  lemma {:induction false} SpentPerApproval(cfg: SubsidyConfig, rs: seq<Request>, month: string)
    ensures var (l, ds) := RunAll(Ledger({}, map[]), cfg, rs);
            |ds| == |rs| && SpentIn(l, month) == cfg.perUserAtomic * ApprovedIn(rs, ds, month)
  {
    if rs != [] {
      hide RunAll, Decide, SpentIn;
      var n := |rs| - 1;
      var (l, ds) := RunAll(Ledger({}, map[]), cfg, rs[..n]);
      SpentPerApproval(cfg, rs[..n], month);
      RunSnoc(cfg, rs);
      DecideSpends(cfg, l, rs[n], month);
      assert (ds + [Decide(l, cfg, rs[n]).1])[..n] == ds;
      MoneyPerGrant(cfg.perUserAtomic, ApprovedIn(rs[..n], ds, month));
    }
  }

  lemma {:induction false} RunPrefix(cfg: SubsidyConfig, rs: seq<Request>, i: nat)
    requires i <= |rs|
    ensures |RunAll(Ledger({}, map[]), cfg, rs).1| == |rs|
    ensures RunAll(Ledger({}, map[]), cfg, rs).1[..i] == RunAll(Ledger({}, map[]), cfg, rs[..i]).1
  {
    hide RunAll;
    SpentPerApproval(cfg, rs, "");
    if i == |rs| {
      assert rs[..i] == rs;
    } else {
      var n := |rs| - 1;
      SpentPerApproval(cfg, rs[..n], "");
      RunSnoc(cfg, rs);
      RunPrefix(cfg, rs[..n], i);
      assert rs[..n][..i] == rs[..i];
    }
  }

  /**
   * Every decision of every run, from the decisions before it: an address approved before is told so, another is
   * approved exactly when one more grant fits its month, and each is told what is left of that month.
   */
  lemma DecisionMeans(cfg: SubsidyConfig, rs: seq<Request>, i: nat)
    requires i < |rs|
    ensures var ds := RunAll(Ledger({}, map[]), cfg, rs).1;
            && |ds| == |rs|
            && Answers(cfg, ApprovedIn(rs[..i], ds[..i], rs[i].month), rs[i].address in ApprovedOf(rs[..i], ds[..i]), ds[i])
  {
    hide RunAll, Sum, Distinct;
    RunPrefix(cfg, rs, i);
    RunPrefix(cfg, rs, i + 1);
    SpentPerApproval(cfg, rs[..i], rs[i].month);
    SubsidyConserved(cfg, rs[..i]);
    RunSnoc(cfg, rs[..i + 1]);
    assert rs[..i + 1][..i] == rs[..i];
    var (l, ds) := RunAll(Ledger({}, map[]), cfg, rs[..i]);
    assert RunAll(Ledger({}, map[]), cfg, rs).1[i] == Decide(l, cfg, rs[i]).1;
    MoneyPerGrant(cfg.perUserAtomic, ApprovedIn(rs[..i], ds, rs[i].month));
  }

  predicate DistinctAddresses(rs: seq<Request>) { forall i, j | 0 <= i < j < |rs| :: rs[i].address != rs[j].address }

  lemma {:induction false} ApprovedAsked(rs: seq<Request>, ds: seq<Decision>, a: string) returns (k: nat)
    requires |rs| == |ds| && a in ApprovedOf(rs, ds)
    ensures k < |rs| && rs[k].address == a
  {
    k := |rs| - 1;
    if a in ApprovedOf(rs[..k], ds[..k]) {
      k := ApprovedAsked(rs[..k], ds[..k], a);
    }
  }

  /** How many grants a month can hold. */
  function Capacity(cfg: SubsidyConfig): nat
    requires cfg.perUserAtomic > 0
  {
    if cfg.monthlyBudgetAtomic < 0 then 0 else cfg.monthlyBudgetAtomic / cfg.perUserAtomic
  }

  lemma OneMoreFits(cfg: SubsidyConfig, k: nat)
    requires cfg.perUserAtomic > 0
    ensures cfg.perUserAtomic * (k + 1) <= cfg.monthlyBudgetAtomic <==> k + 1 <= Capacity(cfg)
  {
    var p, b := cfg.perUserAtomic, cfg.monthlyBudgetAtomic;
    if b >= 0 {
      QuotientFits(p, b, k + 1);
    } else {
      assert p * (k + 1) >= 0;
    }
  }

  lemma QuotientFits(p: nat, b: nat, n: nat)
    requires p > 0
    ensures p * n <= b <==> n <= b / p
  {
    var q := b / p;
    assert p * q <= b < p * q + p;
    if n <= q {
      assert p * (q - n) >= 0;
    } else {
      assert p * (n - q - 1) >= 0;
    }
  }

  /** New addresses are approved until the month is full: the grant that exactly uses it up is the last. */
  lemma {:induction false} MonthFillsUp(cfg: SubsidyConfig, rs: seq<Request>, month: string)
    requires cfg.perUserAtomic > 0 && DistinctAddresses(rs)
    ensures var ds := RunAll(Ledger({}, map[]), cfg, rs).1;
            |ds| == |rs| && ApprovedIn(rs, ds, month) == Min(RequestsIn(rs, month), Capacity(cfg))
  {
    hide RunAll, Capacity;
    if rs == [] {
      RunPrefix(cfg, rs, 0);
    } else {
      var n := |rs| - 1;
      MonthFillsUp(cfg, rs[..n], month);
      RunPrefix(cfg, rs, n);
      DecisionMeans(cfg, rs, n);
      var ds := RunAll(Ledger({}, map[]), cfg, rs).1;
      if rs[n].address in ApprovedOf(rs[..n], ds[..n]) {
        var k := ApprovedAsked(rs[..n], ds[..n], rs[n].address);
        assert false;
      }
      OneMoreFits(cfg, ApprovedIn(rs[..n], ds[..n], rs[n].month));
    }
  }
}
