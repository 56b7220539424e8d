/** Safety of the facilitator over every sequential run: balances, caps, day totals and the request rate. */
module SettleRuns {
  import opened Common
  import opened Decimal
  import opened X402
  import opened Canonical
  import opened Sessions
  import opened GasStations
  import opened Settlement

  /** A settle attempt, the backend clock advancing, or an admin pausing the platform. */
  datatype Action =
    | Settle(input: SettleInput, checkAt: Readings, recordAt: Readings)
    | Advance(ms: int)
    | SetPaused(on: bool)

  datatype RunState = RunState(b: BackendState, g: GasState)

  /** One settlement that went through: whose, how much, on which day, and when the limiter recorded it. */
  datatype Entry = Entry(session: string, amount: int, day: int, at: int)

  function Step(s: RunState, a: Action, cfg: Config, limits: Limits): (RunState, seq<Entry>) {
    match a
    case Advance(ms) => (s.(b := s.b.(nowMs := s.b.nowMs + ms)), [])
    case SetPaused(on) => (s.(b := s.b.(paused := on)), [])
    case Settle(input, checkAt, recordAt) =>
      var (b1, g1, r) := SettleStep(s.b, s.g, input, cfg, limits, checkAt, recordAt);
      (RunState(b1, g1),
       if r.Settled? then
         [Entry(PayerSession(input), r.result.settledAmountAtomic, EpochDay(s.b.nowMs), recordAt.last)]
       else [])
  }

  function Run(s: RunState, acts: seq<Action>, cfg: Config, limits: Limits): (RunState, seq<Entry>) {
    if acts == [] then (s, []) else
    var (s1, log) := Run(s, acts[..|acts| - 1], cfg, limits);
    var (s2, more) := Step(s1, acts[|acts| - 1], cfg, limits);
    (s2, log + more)
  }

  // ----- totals over the log -----

  function Total(log: seq<Entry>, id: string): int {
    if log == [] then 0 else
    var e := log[|log| - 1];
    Total(log[..|log| - 1], id) + (if e.session == id then e.amount else 0)
  }

  function DayTotal(log: seq<Entry>, id: string, day: int): int {
    if log == [] then 0 else
    var e := log[|log| - 1];
    DayTotal(log[..|log| - 1], id, day) + (if e.session == id && e.day == day then e.amount else 0)
  }

  predicate SettledOn(log: seq<Entry>, id: string, day: int) {
    exists e | e in log :: e.session == id && e.day == day
  }

  predicate Forward(acts: seq<Action>) { forall a | a in acts :: a.Advance? ==> a.ms >= 0 }

  /** Today's spend the session already carried, when it was recorded for a day that had begun. */
  function Carried(s0: SessionView, day: int, startMs: int): int {
    if s0.todayEpochDay <= EpochDay(startMs) then SpentOn(s0, day) else 0
  }

  /** How a session and the log relate at every point of a run, for one day. */
  ghost predicate Ledger(s0: SessionView, s: SessionView, log: seq<Entry>, id: string, day: int, startMs: int, nowMs: int) {
    && startMs <= nowMs
    && s == s0.(balanceAtomic := s.balanceAtomic, todaySpentAtomic := s.todaySpentAtomic, todayEpochDay := s.todayEpochDay)
    && s.balanceAtomic == s0.balanceAtomic - Total(log, id)
    && (s0.balanceAtomic >= 0 ==> s.balanceAtomic >= 0)
    && (forall e | e in log && e.session == id :: 0 <= e.amount && (s.perCallCapAtomic > 0 ==> e.amount <= s.perCallCapAtomic))
    // the day record
    && ((s == s0 && forall e | e in log :: e.session != id)
        || EpochDay(startMs) <= s.todayEpochDay <= EpochDay(nowMs))
    && (day == s.todayEpochDay ==> s.todaySpentAtomic >= DayTotal(log, id, day) + Carried(s0, day, startMs))
    && (!SettledOn(log, id, day) ==> DayTotal(log, id, day) == 0)
    && (day > s.todayEpochDay ==> !SettledOn(log, id, day))
    && (SettledOn(log, id, day) && s.perDayCapAtomic > 0 ==>
          DayTotal(log, id, day) + Carried(s0, day, startMs) <= s.perDayCapAtomic)
  }

  lemma LogGrows(log: seq<Entry>, e: Entry, id: string, day: int)
    ensures Total(log + [e], id) == Total(log, id) + (if e.session == id then e.amount else 0)
    ensures DayTotal(log + [e], id, day) == DayTotal(log, id, day) + (if e.session == id && e.day == day then e.amount else 0)
    ensures SettledOn(log + [e], id, day) <==> SettledOn(log, id, day) || (e.session == id && e.day == day)
  {
    assert (log + [e])[..|log|] == log;
    if SettledOn(log, id, day) {
      var x :| x in log && x.session == id && x.day == day;
      assert x in log + [e];
    }
    assert e in log + [e];
  }

  /** A settle of another session leaves this one's ledger alone. */
  lemma LedgerOther(s0: SessionView, s: SessionView, log: seq<Entry>, e: Entry, id: string, day: int, startMs: int, nowMs: int)
    requires Ledger(s0, s, log, id, day, startMs, nowMs) && e.session != id
    ensures Ledger(s0, s, log + [e], id, day, startMs, nowMs)
  {
    LogGrows(log, e, id, day);
  }

  /** A settle within the limits keeps the ledger. */
  lemma LedgerDebit(s0: SessionView, s: SessionView, log: seq<Entry>, e: Entry, id: string, day: int, startMs: int, nowMs: int)
    requires Ledger(s0, s, log, id, day, startMs, nowMs) && s0.todaySpentAtomic >= 0
    requires WithinLimits(s, e.amount, nowMs) && e.session == id && e.day == EpochDay(nowMs)
    ensures Ledger(s0, Debited(s, e.amount, e.day), log + [e], id, day, startMs, nowMs)
  {
    LogGrows(log, e, id, day);
    EpochDayMonotone(startMs, nowMs);
  }

  /** What one action does to the sessions and the log, without the settle path's detail. */
  lemma StepFacts(t: RunState, a: Action, cfg: Config, limits: Limits)
    requires Keyed(t.b.sessions)
    ensures var (t1, more) := Step(t, a, cfg, limits);
            && Keyed(t1.b.sessions)
            && t1.b.nowMs == t.b.nowMs + (if a.Advance? then a.ms else 0)
            && (more == [] ==> t1.b.sessions == t.b.sessions)
            && (more != [] ==>
              && more == [more[0]] && more[0].session in t.b.sessions && more[0].day == EpochDay(t.b.nowMs)
              && WithinLimits(t.b.sessions[more[0].session], more[0].amount, t.b.nowMs)
              && t1.b.nowMs == t.b.nowMs
              && t1.b.sessions == t.b.sessions[more[0].session :=
                   Debited(t.b.sessions[more[0].session], more[0].amount, more[0].day)])
  {
    if a.Settle? {
      StepEffect(t.b, t.g, a.input, cfg, limits, a.checkAt, a.recordAt);
    }
  }

  lemma LedgerTick(s0: SessionView, s: SessionView, log: seq<Entry>, id: string, day: int, startMs: int, nowMs: int, later: int)
    requires Ledger(s0, s, log, id, day, startMs, nowMs) && nowMs <= later
    ensures Ledger(s0, s, log, id, day, startMs, later)
  {
    EpochDayMonotone(nowMs, later);
  }

  /** One action's effect on the ledger, given only the facts above. */
  lemma LedgerStep(
    s0: SessionView, before: BackendState, after: BackendState, log: seq<Entry>, more: seq<Entry>, id: string, day: int, startMs: int)
    requires id in before.sessions && s0.todaySpentAtomic >= 0
    requires Ledger(s0, before.sessions[id], log, id, day, startMs, before.nowMs)
    requires before.nowMs <= after.nowMs
    requires more == [] ==> after.sessions == before.sessions
    requires more != [] ==>
      && more == [more[0]] && more[0].session in before.sessions && more[0].day == EpochDay(before.nowMs)
      && WithinLimits(before.sessions[more[0].session], more[0].amount, before.nowMs)
      && after.nowMs == before.nowMs
      && after.sessions == before.sessions[more[0].session :=
           Debited(before.sessions[more[0].session], more[0].amount, more[0].day)]
    ensures id in after.sessions && Ledger(s0, after.sessions[id], log + more, id, day, startMs, after.nowMs)
  {
    if more == [] {
      assert log + [] == log;
      LedgerTick(s0, before.sessions[id], log, id, day, startMs, before.nowMs, after.nowMs);
    } else if more[0].session == id {
      LedgerDebit(s0, before.sessions[id], log, more[0], id, day, startMs, before.nowMs);
    } else {
      LedgerOther(s0, before.sessions[id], log, more[0], id, day, startMs, before.nowMs);
    }
  }

  /**
   * Over every run with a clock that never runs back: the balance is the initial balance minus what was settled
   * and never goes negative; every settled amount respects the per-call cap and every day's total the per-day cap.
   */
  lemma {:induction false} RunKeepsLedger(s: RunState, acts: seq<Action>, cfg: Config, limits: Limits, id: string, day: int)
    requires Keyed(s.b.sessions) && id in s.b.sessions && Forward(acts)
    requires s.b.sessions[id].todaySpentAtomic >= 0
    ensures var (t, log) := Run(s, acts, cfg, limits);
            && Keyed(t.b.sessions) && id in t.b.sessions
            && Ledger(s.b.sessions[id], t.b.sessions[id], log, id, day, s.b.nowMs, t.b.nowMs)
  {
    if acts != [] {
      var init, a := acts[..|acts| - 1], acts[|acts| - 1];
      RunKeepsLedger(s, init, cfg, limits, id, day);
      var (t, log) := Run(s, init, cfg, limits);
      var (t1, more) := Step(t, a, cfg, limits);
      StepFacts(t, a, cfg, limits);
      LedgerStep(s.b.sessions[id], t.b, t1.b, log, more, id, day, s.b.nowMs);
    }
  }

  /** The reader's form of the ledger: conservation, no overdraft, per-call cap, per-day cap. */
  lemma RunIsSafe(s: RunState, acts: seq<Action>, cfg: Config, limits: Limits, id: string, day: int)
    requires Keyed(s.b.sessions) && id in s.b.sessions && Forward(acts)
    requires s.b.sessions[id].todaySpentAtomic >= 0
    ensures var (t, log) := Run(s, acts, cfg, limits);
            var s0 := s.b.sessions[id];
            && id in t.b.sessions
            && t.b.sessions[id].balanceAtomic == s0.balanceAtomic - Total(log, id)
            && (s0.balanceAtomic >= 0 ==> t.b.sessions[id].balanceAtomic >= 0)
            && (s0.perCallCapAtomic > 0 ==> forall e | e in log && e.session == id :: 0 <= e.amount <= s0.perCallCapAtomic)
            && (s0.perDayCapAtomic > 0 ==> DayTotal(log, id, day) <= s0.perDayCapAtomic)
  {
    RunKeepsLedger(s, acts, cfg, limits, id, day);
  }

  // ----- every debit was signed -----

  /** The ceilings of all authorized requests on the session; a request sent again counts again. */
  function SignedTotal(acts: seq<Action>, id: string, owner: string, cfg: Config): int {
    if acts == [] then 0 else
    var a := acts[|acts| - 1];
    SignedTotal(acts[..|acts| - 1], id, owner, cfg)
      + (if a.Settle? && PayerSession(a.input) == id && Authorized(a.input, owner, cfg) then SignedAmount(a.input) else 0)
  }

  lemma EntryWasSigned(t: RunState, a: Action, cfg: Config, limits: Limits)
    requires Keyed(t.b.sessions)
    ensures var (t1, more) := Step(t, a, cfg, limits);
            more != [] ==>
              && a.Settle? && more == [more[0]] && more[0].session == PayerSession(a.input)
              && more[0].session in t.b.sessions
              && Authorized(a.input, t.b.sessions[more[0].session].ownerAddress, cfg)
              && more[0].amount <= SignedAmount(a.input)
  {
    hide SettleStep;
    hide Keyed;
    hide PayerSession;
    hide SignedAmount;
    hide Authorized;
    hide WithinLimits;
    hide Debited;
    hide EpochDay;
    if a.Settle? && SettleStep(t.b, t.g, a.input, cfg, limits, a.checkAt, a.recordAt).2.Settled? {
      StepEffect(t.b, t.g, a.input, cfg, limits, a.checkAt, a.recordAt);
      SettledWasAuthorized(t.b, t.g, a.input, cfg, limits, a.checkAt, a.recordAt);
    }
  }

  /** The two views of a session differ in its money alone. */
  predicate SameTerms(s: SessionView, t: SessionView) {
    t == s.(balanceAtomic := t.balanceAtomic, todaySpentAtomic := t.todaySpentAtomic, todayEpochDay := t.todayEpochDay)
  }

  lemma StepKeepsTerms(t: RunState, a: Action, cfg: Config, limits: Limits, id: string)
    requires Keyed(t.b.sessions) && id in t.b.sessions
    ensures var (t1, more) := Step(t, a, cfg, limits);
            && Keyed(t1.b.sessions) && id in t1.b.sessions
            && SameTerms(t.b.sessions[id], t1.b.sessions[id])
  {
    hide Step;
    hide EpochDay;
    hide WithinLimits;
    StepFacts(t, a, cfg, limits);
  }

  lemma {:induction false} RunKeepsTerms(s: RunState, acts: seq<Action>, cfg: Config, limits: Limits, id: string)
    requires Keyed(s.b.sessions) && id in s.b.sessions
    ensures var (t, _) := Run(s, acts, cfg, limits);
            && Keyed(t.b.sessions) && id in t.b.sessions
            && SameTerms(s.b.sessions[id], t.b.sessions[id])
  {
    hide Step;
    hide Keyed;
    if acts != [] {
      RunKeepsTerms(s, acts[..|acts| - 1], cfg, limits, id);
      StepKeepsTerms(Run(s, acts[..|acts| - 1], cfg, limits).0, acts[|acts| - 1], cfg, limits, id);
    }
  }

  lemma TotalGrows(log: seq<Entry>, more: seq<Entry>, id: string)
    requires |more| <= 1
    ensures Total(log + more, id) == Total(log, id) + (if more != [] && more[0].session == id then more[0].amount else 0)
  {
    if more == [] {
      assert log + more == log;
    } else {
      assert log + more == log + [more[0]];
      LogGrows(log, more[0], id, 0);
    }
  }

  /** Over every run, all that was debited from a session is covered by what its owner signed, per submission. */
  lemma {:induction false} DebitsWereSigned(s: RunState, acts: seq<Action>, cfg: Config, limits: Limits, id: string)
    requires Keyed(s.b.sessions) && id in s.b.sessions
    ensures var (t, log) := Run(s, acts, cfg, limits);
            var owner := s.b.sessions[id].ownerAddress;
            && Keyed(t.b.sessions) && id in t.b.sessions && t.b.sessions[id].ownerAddress == owner
            && Total(log, id) <= SignedTotal(acts, id, owner, cfg)
  {
    hide Step;
    hide Keyed;
    hide PayerSession;
    hide SignedAmount;
    hide Authorized;
    if acts != [] {
      var init, a := acts[..|acts| - 1], acts[|acts| - 1];
      DebitsWereSigned(s, init, cfg, limits, id);
      var (t, log) := Run(s, init, cfg, limits);
      var (t1, more) := Step(t, a, cfg, limits);
      StepKeepsTerms(t, a, cfg, limits, id);
      EntryWasSigned(t, a, cfg, limits);
      TotalGrows(log, more, id);
    }
  }

  // ----- one signature, submitted twice -----

  /** What can still stop a request that verified before: the pause, the quote's end, the session's end and its money. */
  predicate StillGood(input: SettleInput, b: BackendState)
    requires ParsePayload(input.payload).Ok? && PayerSession(input) in b.sessions
  {
    var s, amount := b.sessions[PayerSession(input)], SignedAmount(input);
    && !b.paused && !Before(ParsePayload(input.payload).value.details.validUntilMs, b.nowMs)
    && (s.expiresAtMs.Some? ==> b.nowMs <= s.expiresAtMs.value)
    && amount <= s.balanceAtomic
    && (s.perDayCapAtomic > 0 ==> SpentOn(s, EpochDay(b.nowMs)) + amount <= s.perDayCapAtomic)
  }

  /** Verification keeps no memory of signatures: a request that verified verifies again exactly while it is still good. */
  lemma VerifiesAgainIff(input: SettleInput, b: BackendState, b2: BackendState, cfg: Config)
    requires VerifyPayment(input, b, cfg).None? && PayerSession(input) in b.sessions && PayerSession(input) in b2.sessions
    requires SameTerms(b.sessions[PayerSession(input)], b2.sessions[PayerSession(input)])
    requires ParsePayload(input.payload).Ok?
    ensures VerifyPayment(input, b2, cfg).None? <==> StillGood(input, b2)
  {
    hide ParsePayload;
    hide ParseDetails;
    hide Lower;
    hide AmountOf;
    hide EpochDay;
  }

  lemma SettlesIff(
    b: BackendState, g: GasState, input: SettleInput, cfg: Config, limits: Limits, checkAt: Readings, recordAt: Readings)
    ensures SettleStep(b, g, input, cfg, limits, checkAt, recordAt).2.Settled? <==>
      && VerifyPayment(input, b, cfg).None? && CheckOf(g, limits, checkAt).Allowed? && cfg.failSubmitWith.None?
      && ParsePayload(input.payload).Ok? && BuildParams(ParsePayload(input.payload).value, input).Ok?
  {
    hide VerifyPayment;
    hide ParsePayload;
    hide BuildParams;
    hide CheckOf;
    hide Refreshed;
    hide Recorded;
    hide Debited;
    hide EpochDay;
    hide WithinLimits;
    if VerifyPayment(input, b, cfg).None? {
      VerifiedSession(input, b, cfg);
      var p := ParsePayload(input.payload).value;
      if BuildParams(p, input).Ok? {
        BuiltParams(p, input);
      }
    }
  }

  /** What a settle debits depends on the request alone. */
  lemma SettledAmountFixed(
    b: BackendState, g: GasState, input: SettleInput, cfg: Config, limits: Limits, checkAt: Readings, recordAt: Readings)
    requires SettleStep(b, g, input, cfg, limits, checkAt, recordAt).2.Settled?
    ensures ParsePayload(input.payload).Ok? && BuildParams(ParsePayload(input.payload).value, input).Ok?
    ensures SettleStep(b, g, input, cfg, limits, checkAt, recordAt).2.result.settledAmountAtomic
         == DebitOf(BuildParams(ParsePayload(input.payload).value, input).value)
  {
    hide VerifyPayment;
    hide ParsePayload;
    hide BuildParams;
    hide CheckOf;
    hide Refreshed;
    hide Recorded;
    hide Debited;
    hide EpochDay;
    hide DebitOf;
  }

  /**
   * The facilitator keeps no record of the signatures it took. Whatever it did since, a request that settled settles
   * again, for the same amount, exactly while the platform is not paused, the quote and the session have not run out,
   * what is left covers the signed amount and the day cap, and the limiter allows it.
   */
  lemma ResubmitSettlesIff(
    b: BackendState, g: GasState, input: SettleInput, cfg: Config, limits: Limits, checkAt: Readings, recordAt: Readings,
    between: seq<Action>, checkAgain: Readings, recordAgain: Readings)
    requires Keyed(b.sessions)
    requires SettleStep(b, g, input, cfg, limits, checkAt, recordAt).2.Settled?
    ensures ParsePayload(input.payload).Ok? && PayerSession(input) in b.sessions
    ensures var (b1, g1, first) := SettleStep(b, g, input, cfg, limits, checkAt, recordAt);
            var (t, _) := Run(RunState(b1, g1), between, cfg, limits);
            var again := SettleStep(t.b, t.g, input, cfg, limits, checkAgain, recordAgain).2;
            && Keyed(t.b.sessions) && PayerSession(input) in t.b.sessions
            && (again.Settled? <==> StillGood(input, t.b) && CheckOf(t.g, limits, checkAgain).Allowed?)
            && (again.Settled? ==> again.result.settledAmountAtomic == first.result.settledAmountAtomic)
  {
    hide SettleStep;
    hide Run;
    hide VerifyPayment;
    hide ParsePayload;
    hide BuildParams;
    hide CheckOf;
    hide Keyed;
    hide StillGood;
    hide WithinLimits;
    hide EpochDay;
    hide DebitOf;
    hide PayerSession;
    hide SignedAmount;
    StepEffect(b, g, input, cfg, limits, checkAt, recordAt);
    SettlesIff(b, g, input, cfg, limits, checkAt, recordAt);
    SettledAmountFixed(b, g, input, cfg, limits, checkAt, recordAt);
    var (b1, g1, first) := SettleStep(b, g, input, cfg, limits, checkAt, recordAt);
    RunKeepsTerms(RunState(b1, g1), between, cfg, limits, PayerSession(input));
    var (t, log) := Run(RunState(b1, g1), between, cfg, limits);
    VerifiesAgainIff(input, b, t.b, cfg);
    SettlesIff(t.b, t.g, input, cfg, limits, checkAgain, recordAgain);
    if SettleStep(t.b, t.g, input, cfg, limits, checkAgain, recordAgain).2.Settled? {
      SettledAmountFixed(t.b, t.g, input, cfg, limits, checkAgain, recordAgain);
    }
  }

  lemma RunTwo(s: RunState, a: Action, cfg: Config, limits: Limits)
    ensures var (s1, first) := Step(s, a, cfg, limits);
            Run(s, [a, a], cfg, limits) == (Step(s1, a, cfg, limits).0, first + Step(s1, a, cfg, limits).1)
  {
    hide Step;
    assert [a, a][..1] == [a] && [a][..0] == [];
    assert Run(s, [], cfg, limits) == (s, []);
    assert Run(s, [a], cfg, limits) == Step(s, a, cfg, limits) by {
      assert [] + Step(s, a, cfg, limits).1 == Step(s, a, cfg, limits).1;
    }
  }

  /** The same request twice debits twice what it debited once. */
  lemma TwiceDebitsTwice(s: RunState, a: Action, cfg: Config, limits: Limits)
    requires a.Settle? && Keyed(s.b.sessions)
    requires SettleStep(s.b, s.g, a.input, cfg, limits, a.checkAt, a.recordAt).2.Settled?
    requires var (b1, g1, _) := SettleStep(s.b, s.g, a.input, cfg, limits, a.checkAt, a.recordAt);
             SettleStep(b1, g1, a.input, cfg, limits, a.checkAt, a.recordAt).2.Settled?
    ensures Total(Run(s, [a, a], cfg, limits).1, PayerSession(a.input))
         == 2 * SettleStep(s.b, s.g, a.input, cfg, limits, a.checkAt, a.recordAt).2.result.settledAmountAtomic
  {
    hide SettleStep;
    hide Run;
    hide PayerSession;
    hide EpochDay;
    hide BuildParams;
    hide ParsePayload;
    hide DebitOf;
    var (b1, g1, first) := SettleStep(s.b, s.g, a.input, cfg, limits, a.checkAt, a.recordAt);
    var again := SettleStep(b1, g1, a.input, cfg, limits, a.checkAt, a.recordAt).2;
    SettledAmountFixed(s.b, s.g, a.input, cfg, limits, a.checkAt, a.recordAt);
    SettledAmountFixed(b1, g1, a.input, cfg, limits, a.checkAt, a.recordAt);
    RunTwo(s, a, cfg, limits);
    var id := PayerSession(a.input);
    var e := Entry(id, first.result.settledAmountAtomic, EpochDay(s.b.nowMs), a.recordAt.last);
    var f := Entry(id, again.result.settledAmountAtomic, EpochDay(b1.nowMs), a.recordAt.last);
    LogGrows([], e, id, 0);
    LogGrows([e], f, id, 0);
    assert [] + [e] == [e];
  }

  function QuoteOnce(): PaymentPayloadWire {
    PaymentPayloadWire(
      "s", "0xa", "0x5", None, PaymentDetailsWire(Exact, SuiTestnet, "0x1", "t", "5", "0x2::u::U", Whole(1_000), None))
  }

  function RequestOnce(): Action {
    Settle(SettleInput(PayloadJson(QuoteOnce()), DetailsJson(QuoteOnce().details), None, None, None), Still(0), Still(0))
  }

  function OneSession(): BackendState {
    BackendState(
      map["0x5" := SessionView("0x5", "0xa", true, 10, 0, 0, 0, 0, [], None)], false, 0, 0, [], [])
  }

  function AnySignature(): Config { Config(SuiTestnet, "0x2::u::U", (signature, message, payer) => true, None) }

  lemma QuoteParses()
    ensures ParsePayload(RequestOnce().input.payload) == Ok(QuoteOnce())
    ensures ParseDetails(Some(RequestOnce().input.details)) == Ok(QuoteOnce().details)
    ensures AmountOf(QuoteOnce().details) == 5
  {
    hide ParsePayload;
    hide ParseDetails;
    hide PayloadJson;
    hide DetailsJson;
    var d := QuoteOnce().details;
    assert d.tokenType[3] == ':' && d.tokenType[4] == ':';
    assert WellFormedDetails(d);
    ParsePrintedPayload(QuoteOnce());
    ParsePrintedDetails(d);
    assert d.amountAtomic == "5" && "5"[..0] == "";
  }

  /** A debit is not bounded by the amount signed: one signature for 5, submitted twice, takes 10. */
  lemma OneSignatureTwoDebits(limits: Limits)
    requires limits.ratePerMinute >= 2 && limits.dailyBudgetMist > 0
    ensures var a := RequestOnce();
            var log := Run(RunState(OneSession(), Fresh(0)), [a, a], AnySignature(), limits).1;
            Total(log, PayerSession(a.input)) == 10 > SignedAmount(a.input) == 5
  {
    hide ParsePayload;
    hide ParseDetails;
    hide PayloadJson;
    hide DetailsJson;
    hide AmountOf;
    hide Run;
    hide Total;
    hide SettleStep;
    var a, s, cfg := RequestOnce(), RunState(OneSession(), Fresh(0)), AnySignature();
    QuoteParses();
    QuoteSettles(limits);
    TwiceDebitsTwice(s, a, cfg, limits);
  }

  lemma QuoteSettles(limits: Limits)
    requires limits.ratePerMinute >= 2 && limits.dailyBudgetMist > 0
    ensures Keyed(OneSession().sessions)
    ensures var a := RequestOnce();
            var (b1, g1, first) := SettleStep(OneSession(), Fresh(0), a.input, AnySignature(), limits, Still(0), Still(0));
            && first.Settled? && first.result.settledAmountAtomic == 5
            && SettleStep(b1, g1, a.input, AnySignature(), limits, Still(0), Still(0)).2.Settled?
  {
    hide ParsePayload;
    hide ParseDetails;
    hide PayloadJson;
    hide DetailsJson;
    hide AmountOf;
    hide SettleStep;
    hide CanonicalMessage;
    hide Lower;
    var b, a, cfg := OneSession(), RequestOnce(), AnySignature();
    QuoteParses();
    SettlesIff(b, Fresh(0), a.input, cfg, limits, Still(0), Still(0));
    SettledAmountFixed(b, Fresh(0), a.input, cfg, limits, Still(0), Still(0));
    StepEffect(b, Fresh(0), a.input, cfg, limits, Still(0), Still(0));
    StepGas(b, Fresh(0), a.input, cfg, limits, Still(0), Still(0));
    var (b1, g1, first) := SettleStep(b, Fresh(0), a.input, cfg, limits, Still(0), Still(0));
    ResubmitSettlesIff(b, Fresh(0), a.input, cfg, limits, Still(0), Still(0), [], Still(0), Still(0));
  }

  // ----- the request rate -----

  function Times(log: seq<Entry>): seq<int> { seq(|log|, i requires 0 <= i < |log| => log[i].at) }

  /** How many timestamps lie in the closed interval. */
  function CountIn(ts: seq<int>, lo: int, hi: int): nat {
    if ts == [] then 0
    else CountIn(ts[..|ts| - 1], lo, hi) + (if lo <= ts[|ts| - 1] <= hi then 1 else 0)
  }

  /** The limiter's clock: each settle checks no later than it records, and never before an earlier one recorded. */
  ghost predicate ClockFrom(acts: seq<Action>, start: int) {
    forall i | 0 <= i < |acts| && acts[i].Settle? ::
      && Ordered(acts[i].checkAt) && Ordered(acts[i].recordAt)
      && start <= acts[i].checkAt.roll && acts[i].checkAt.last <= acts[i].recordAt.roll
      && forall j | 0 <= j < i && acts[j].Settle? :: acts[j].recordAt.last <= acts[i].checkAt.roll
  }

  lemma {:induction false} CountSplit(pre: seq<int>, ts: seq<int>, lo: int, hi: int)
    ensures CountIn(pre + ts, lo, hi) == CountIn(pre, lo, hi) + CountIn(ts, lo, hi)
  {
    if ts == [] {
      assert pre + ts == pre;
    } else {
      CountSplit(pre, ts[..|ts| - 1], lo, hi);
      assert (pre + ts)[..|pre + ts| - 1] == pre + ts[..|ts| - 1];
    }
  }

  lemma {:induction false} CountBounds(ts: seq<int>, lo: int, hi: int)
    ensures CountIn(ts, lo, hi) <= |ts|
    ensures (forall t | t in ts :: t < lo) ==> CountIn(ts, lo, hi) == 0
  {
    if ts != [] {
      var init := ts[..|ts| - 1];
      CountBounds(init, lo, hi);
      assert forall t | t in init :: t in ts;
      assert ts[|ts| - 1] in ts;
    }
  }

  /** The limiter forgets only what left every window that can still matter. */
  ghost predicate Remembers(g: GasState, times: seq<int>, now: int) {
    exists pre :: times == pre + g.timestamps && forall t | t in pre :: t < now - WINDOW_MS
  }

  lemma RefreshRemembers(g: GasState, times: seq<int>, before: int, now: Readings) returns (pre: seq<int>)
    requires Remembers(g, times, before) && before <= now.trim
    ensures times == pre + Refreshed(g, now).timestamps && forall t | t in pre :: t < now.trim - WINDOW_MS
  {
    var p :| times == p + g.timestamps && forall t | t in p :: t < before - WINDOW_MS;
    var k := TrimSplit(g.timestamps, now.trim - WINDOW_MS);
    pre := p + g.timestamps[..k];
    assert g.timestamps == g.timestamps[..k] + g.timestamps[k..];
  }

  /** Recording at `recordAt`, after a check at `checkAt` that counted fewer than `rate`, overfills no window. */
  lemma RecordKeepsRate(pre: seq<int>, ts: seq<int>, rate: int, checkAt: int, recordAt: int, lo: int)
    requires checkAt <= recordAt && |ts| < rate
    requires forall t | t in pre :: t < checkAt - WINDOW_MS
    requires CountIn(pre + ts, lo, lo + WINDOW_MS) <= rate
    ensures CountIn(pre + ts + [recordAt], lo, lo + WINDOW_MS) <= rate
  {
    assert (pre + ts + [recordAt])[..|pre + ts|] == pre + ts;
    if lo <= recordAt <= lo + WINDOW_MS {
      CountSplit(pre, ts, lo, lo + WINDOW_MS);
      CountBounds(pre, lo, lo + WINDOW_MS);
      CountBounds(ts, lo, lo + WINDOW_MS);
    }
  }

  /** The latest time the limiter has looked at its clock. */
  function LastSeen(acts: seq<Action>, start: int): int {
    if acts == [] then start
    else if acts[|acts| - 1].Settle? then acts[|acts| - 1].recordAt.last
    else LastSeen(acts[..|acts| - 1], start)
  }

  lemma {:induction false} LastSeenBefore(acts: seq<Action>, start: int, next: int)
    requires forall j | 0 <= j < |acts| && acts[j].Settle? :: acts[j].recordAt.last <= next
    requires start <= next
    ensures LastSeen(acts, start) <= next
  {
    if acts != [] && !acts[|acts| - 1].Settle? {
      LastSeenBefore(acts[..|acts| - 1], start, next);
    }
  }

  lemma TimesGrow(log: seq<Entry>, e: Entry)
    ensures Times(log + [e]) == Times(log) + [e.at]
  {
  }

  /** From a fresh limiter, every closed window of 60,000 ms holds at most `ratePerMinute` recorded settlements. */
  lemma {:induction false} RunKeepsRate(
    b: BackendState, acts: seq<Action>, cfg: Config, limits: Limits, start: int, lo: int)
    requires ClockFrom(acts, start)
    ensures var (t, log) := Run(RunState(b, Fresh(start)), acts, cfg, limits);
            RateOk(t.g, Times(log), LastSeen(acts, start), limits, lo)
  {
    var s := RunState(b, Fresh(start));
    if acts == [] {
      assert Times([]) == [] + Fresh(start).timestamps;
    } else {
      var init, a := acts[..|acts| - 1], acts[|acts| - 1];
      assert forall i | 0 <= i < |init| :: init[i] == acts[i];
      RunKeepsRate(b, init, cfg, limits, start, lo);
      var (t, log) := Run(s, init, cfg, limits);
      var (t1, more) := Step(t, a, cfg, limits);
      if a.Settle? {
        LastSeenBefore(init, start, a.checkAt.roll);
        SettleKeepsRate(t, a, cfg, limits, log, LastSeen(init, start), lo);
      } else {
        assert log + [] == log;
      }
    }
  }

  lemma SettleKeepsRate(t: RunState, a: Action, cfg: Config, limits: Limits, log: seq<Entry>, seen: int, lo: int)
    requires a.Settle? && seen <= a.checkAt.roll && Ordered(a.checkAt) && Ordered(a.recordAt) && a.checkAt.last <= a.recordAt.roll
    requires RateOk(t.g, Times(log), seen, limits, lo)
    ensures var (t1, more) := Step(t, a, cfg, limits);
            RateOk(t1.g, Times(log + more), a.recordAt.last, limits, lo)
  {
    StepGas(t.b, t.g, a.input, cfg, limits, a.checkAt, a.recordAt);
    var (t1, more) := Step(t, a, cfg, limits);
    if more == [] {
      assert log + [] == log;
      LookKeepsRate(t.g, t1.g, Times(log), seen, a.checkAt, a.recordAt.last, limits, lo);
    } else {
      TimesGrow(log, more[0]);
      RecordKeepsOk(t.g, Times(log), seen, a.checkAt, a.recordAt, limits, lo);
    }
  }

  /** What a limiter with this history guarantees about the window that starts at `lo`. */
  ghost predicate RateOk(g: GasState, times: seq<int>, now: int, limits: Limits, lo: int) {
    && Remembers(g, times, now)
    && Sorted(g.timestamps) && (forall t | t in g.timestamps :: t <= now)
    && CountIn(times, lo, lo + WINDOW_MS) <= Max(limits.ratePerMinute, 0)
    && |g.timestamps| <= Max(limits.ratePerMinute, 0)
  }

  lemma RemembersLater(g: GasState, times: seq<int>, now: int, later: int)
    requires Remembers(g, times, now) && now <= later
    ensures Remembers(g, times, later)
  {
    var p :| times == p + g.timestamps && forall t | t in p :: t < now - WINDOW_MS;
    assert forall t | t in p :: t < later - WINDOW_MS;
  }

  lemma TrimKeepsOrder(ts: seq<int>, cutoff: int, now: int)
    requires Sorted(ts) && forall t | t in ts :: t <= now
    ensures Sorted(Trim(ts, cutoff)) && forall t | t in Trim(ts, cutoff) :: t <= now
  {
    var k := TrimSplit(ts, cutoff);
    assert forall t | t in ts[k..] :: t in ts;
  }

  lemma LookKeepsRate(g: GasState, g1: GasState, times: seq<int>, seen: int, checkAt: Readings, later: int, limits: Limits, lo: int)
    requires seen <= checkAt.trim <= later && RateOk(g, times, seen, limits, lo)
    requires g1 == g || g1 == Refreshed(g, checkAt)
    ensures RateOk(g1, times, later, limits, lo)
  {
    if g1 == g {
      RemembersLater(g, times, seen, later);
    } else {
      var pre := RefreshRemembers(g, times, seen, checkAt);
      var k := TrimSplit(g.timestamps, checkAt.trim - WINDOW_MS);
      TrimKeepsOrder(g.timestamps, checkAt.trim - WINDOW_MS, seen);
      RemembersLater(g1, times, checkAt.trim, later);
    }
  }

  lemma RecordRemembers(g: GasState, times: seq<int>, seen: int, checkAt: Readings, recordAt: Readings)
    requires seen <= checkAt.trim <= recordAt.trim <= recordAt.last && Remembers(g, times, seen)
    ensures Remembers(Recorded(Refreshed(g, checkAt), recordAt, 0), times + [recordAt.last], recordAt.last)
  {
    var g1 := Refreshed(g, checkAt);
    var pre := RefreshRemembers(g, times, seen, checkAt);
    assert Remembers(g1, times, checkAt.trim);
    var pre2 := RefreshRemembers(g1, times, checkAt.trim, recordAt);
    assert times + [recordAt.last] == pre2 + Recorded(g1, recordAt, 0).timestamps;
  }

  lemma RecordKeepsOrder(g: GasState, seen: int, checkAt: Readings, recordAt: Readings)
    requires seen <= checkAt.trim <= recordAt.trim <= recordAt.last && Sorted(g.timestamps) && forall t | t in g.timestamps :: t <= seen
    ensures var ts := Recorded(Refreshed(g, checkAt), recordAt, 0).timestamps;
            Sorted(ts) && forall t | t in ts :: t <= recordAt.last
  {
    TrimKeepsOrder(g.timestamps, checkAt.trim - WINDOW_MS, seen);
    TrimKeepsOrder(Refreshed(g, checkAt).timestamps, recordAt.trim - WINDOW_MS, seen);
    var kept := Refreshed(Refreshed(g, checkAt), recordAt).timestamps;
    assert forall i | 0 <= i < |kept| :: kept[i] in kept;
  }

  lemma RecordKeepsOk(g: GasState, times: seq<int>, seen: int, checkAt: Readings, recordAt: Readings, limits: Limits, lo: int)
    requires seen <= checkAt.trim <= recordAt.trim <= recordAt.last && RateOk(g, times, seen, limits, lo)
    requires CheckOf(g, limits, checkAt).Allowed?
    ensures RateOk(Recorded(Refreshed(g, checkAt), recordAt, 0), times + [recordAt.last], recordAt.last, limits, lo)
  {
    hide Remembers;
    hide Sorted;
    hide CountIn;
    hide Trim;
    hide EpochDay;
    var g1 := Refreshed(g, checkAt);
    var pre := RefreshRemembers(g, times, seen, checkAt);
    RecordKeepsRate(pre, g1.timestamps, limits.ratePerMinute, checkAt.trim, recordAt.last, lo);
    RecordRemembers(g, times, seen, checkAt, recordAt);
    RecordKeepsOrder(g, seen, checkAt, recordAt);
    var k := TrimSplit(g1.timestamps, recordAt.trim - WINDOW_MS);
  }

  /**
   * After any run, a rate-limited check names a wait of at most the window length, and that wait is exact: with nothing
   * recorded in between, a later check is still limited up to and including it and no longer after it. It is not negative
   * exactly when it was computed before the oldest timestamp kept had left the window.
   */
  lemma RunRetryExact(b: BackendState, acts: seq<Action>, cfg: Config, limits: Limits, start: int, now: Readings, later: Readings)
    requires ClockFrom(acts, start) && LastSeen(acts, start) <= now.roll && Ordered(now) && now.last <= later.trim
    requires limits.ratePerMinute > 0
    requires CheckOf(Run(RunState(b, Fresh(start)), acts, cfg, limits).0.g, limits, now).RateLimited?
    ensures var g := Run(RunState(b, Fresh(start)), acts, cfg, limits).0.g;
            var wait := WaitOf(g, limits, now);
            && wait <= WINDOW_MS
            && (CheckOf(Refreshed(g, now), limits, later).RateLimited? <==> later.trim - now.last <= wait)
            && g.timestamps != [] && (wait >= 0 <==> now.last <= g.timestamps[0] + WINDOW_MS)
  {
    RunKeepsRate(b, acts, cfg, limits, start, 0);
    RetryAfterExact(Run(RunState(b, Fresh(start)), acts, cfg, limits).0.g, limits, now, later);
  }

  // ----- the daily gas budget on this path -----

  lemma StepSpendsNoGas(t: RunState, a: Action, cfg: Config, limits: Limits)
    requires t.g.spentTodayMist == 0
    ensures Step(t, a, cfg, limits).0.g.spentTodayMist == 0
  {
    hide SettleStep;
    hide CheckOf;
    hide EpochDay;
    if a.Settle? {
      StepGas(t.b, t.g, a.input, cfg, limits, a.checkAt, a.recordAt);
      var (b1, g1, r) := SettleStep(t.b, t.g, a.input, cfg, limits, a.checkAt, a.recordAt);
      assert r.Settled? || r.Refused?;
    }
  }

  lemma {:induction false} RunSpendsNoGas(s: RunState, acts: seq<Action>, cfg: Config, limits: Limits)
    requires s.g.spentTodayMist == 0
    ensures Run(s, acts, cfg, limits).0.g.spentTodayMist == 0
  {
    hide Step;
    if acts != [] {
      RunSpendsNoGas(s, acts[..|acts| - 1], cfg, limits);
      StepSpendsNoGas(Run(s, acts[..|acts| - 1], cfg, limits).0, acts[|acts| - 1], cfg, limits);
    }
  }

  /**
   * Every settle records zero gas, so after any run from a fresh limiter nothing counts against the daily budget:
   * a positive budget never refuses a settle, and one that is not positive refuses all that the rate lets through.
   */
  lemma BudgetRefusesIffNotPositive(
    b: BackendState, acts: seq<Action>, cfg: Config, limits: Limits, start: int, now: Readings)
    ensures var g := Run(RunState(b, Fresh(start)), acts, cfg, limits).0.g;
            CheckOf(g, limits, now).DailyBudgetExhausted? <==>
              limits.dailyBudgetMist <= 0 && !CheckOf(g, limits, now).RateLimited?
  {
    hide Run;
    hide EpochDay;
    hide Trim;
    RunSpendsNoGas(RunState(b, Fresh(start)), acts, cfg, limits);
  }
}
