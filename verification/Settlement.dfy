/** The facilitator's settle path: verify, gas check, scheme, chain submit, record. */
module Settlement {
  import opened Common
  import opened X402
  import opened Decimal
  import opened Json
  import opened Canonical
  import opened Sessions
  import opened GasStations

  datatype SettleErrorCode = VerifyFailed | ChainFailed | GasBudget | RateLimitedCode | PlatformPausedCode | InternalError

  datatype SettleOutcome = Settled(result: SubmitResult) | Refused(code: SettleErrorCode)

  class InMemorySuiBackend {
    const cfg: Config
    var sessions: map<string, SessionView>
    var paused: bool
    var nowMs: int
    var settleCounter: nat
    var submitted: seq<SubmitResult>
    var submittedParams: seq<SubmitParams>

    function State(): BackendState
      reads this
    {
      BackendState(sessions, paused, nowMs, settleCounter, submitted, submittedParams)
    }

    constructor (cfg: Config, sessions: map<string, SessionView>, nowMs: int)
      ensures this.cfg == cfg && State() == BackendState(sessions, false, nowMs, 0, [], [])
    {
      this.cfg := cfg;
      this.sessions := sessions;
      this.nowMs := nowMs;
      paused, settleCounter, submitted, submittedParams := false, 0, [], [];
    }

    /** Debits the session; Err where the source throws a chain error. */
    method SubmitSettle(params: SubmitParams) returns (r: Result<SubmitResult, ChainErrorCode>)
      modifies this
      ensures (State(), r) == Submit(old(State()), params, cfg)
    {
      submittedParams := submittedParams + [params];
      if cfg.failSubmitWith.Some? {
        return Err(cfg.failSubmitWith.value);
      }
      if params.sessionObjectId !in sessions {
        return Err(ExecutionFailed);
      }
      var session := sessions[params.sessionObjectId];
      var isUpto := params.uptoActualAtomic.Some?;
      var debit := if isUpto then params.uptoActualAtomic.value else params.amountAtomic;
      if isUpto && debit > params.amountAtomic {
        return Err(ExecutionFailed);
      }
      var today := nowMs / DAY_MS;
      var isNewDay := session.todayEpochDay != today;
      var newToday := if isNewDay then debit else session.todaySpentAtomic + debit;
      var updated := session.(
        balanceAtomic := session.balanceAtomic - debit, todaySpentAtomic := newToday, todayEpochDay := today);
      sessions := sessions[session.sessionObjectId := updated];
      settleCounter := settleCounter + 1;
      var result := SubmitResult(
        settleCounter, debit,
        if isUpto then Some(params.amountAtomic) else None,
        if isUpto then Some(if params.amountAtomic > debit then params.amountAtomic - debit else 0) else None);
      submitted := submitted + [result];
      r := Ok(result);
    }
  }

  function CodeOf(e: ChainErrorCode): SettleErrorCode {
    match e
    case GasBudgetExceeded => GasBudget
    case RpcUnreachable => InternalError
    case ExecutionFailed => ChainFailed
    case Unknown => InternalError
  }

  /** One settle request as a function of the backend and limiter state; the limiter has its own clock, read for its check and for its record. */
  function SettleStep(
    b: BackendState, g: GasState, input: SettleInput, cfg: Config, limits: Limits, checkAt: Readings, recordAt: Readings)
    : (BackendState, GasState, SettleOutcome)
  {
    if VerifyPayment(input, b, cfg).Some? then (b, g, Refused(VerifyFailed)) else
    var g1 := Refreshed(g, checkAt);
    match CheckOf(g, limits, checkAt)
    case RateLimited(_) => (b, g1, Refused(RateLimitedCode))
    case DailyBudgetExhausted => (b, g1, Refused(PlatformPausedCode))
    case Allowed =>
      match ParsePayload(input.payload)
      case Err(_) => (b, g1, Refused(VerifyFailed))
      case Ok(p) =>
        match BuildParams(p, input)
        case Err(_) => (b, g1, Refused(VerifyFailed))
        case Ok(params) =>
          match Submit(b, params, cfg)
          case (b1, Err(e)) => (b1, g1, Refused(CodeOf(e)))
          case (b1, Ok(result)) => (b1, Recorded(g1, recordAt, 0), Settled(result))
  }

  method SettlePayment(
    input: SettleInput, backend: InMemorySuiBackend, gas: GasStation, checkAt: Readings, recordAt: Readings)
    returns (r: SettleOutcome)
    modifies backend, gas
    ensures (backend.State(), gas.State(), r)
         == SettleStep(old(backend.State()), old(gas.State()), input, backend.cfg, gas.limits, checkAt, recordAt)
  {
    var invalid := VerifyPayment(input, backend.State(), backend.cfg);
    if invalid.Some? {
      return Refused(VerifyFailed);
    }
    var check := gas.CheckNow(checkAt);
    if !check.Allowed? {
      return Refused(if check.RateLimited? then RateLimitedCode else PlatformPausedCode);
    }
    var payload := ParsePayload(input.payload).value;
    var built := BuildParams(payload, input);
    if built.Err? {
      return Refused(VerifyFailed);
    }
    var result := backend.SubmitSettle(built.value);
    if result.Err? {
      return Refused(CodeOf(result.error));
    }
    gas.Record(recordAt, 0);
    r := Settled(result.value);
  }

  // ----- one step -----

  /** The session a request asks to debit, and the ceiling its signer agreed to. */
  function PayerSession(input: SettleInput): string {
    match ParsePayload(input.payload) case Ok(p) => p.sessionObjectId case Err(_) => ""
  }

  function SignedAmount(input: SettleInput): nat {
    match ParsePayload(input.payload) case Ok(p) => AmountOf(p.details) case Err(_) => 0
  }

  /** What the settle of `amount` on `s` at `nowMs` respected. */
  predicate WithinLimits(s: SessionView, amount: int, nowMs: int) {
    && 0 <= amount <= s.balanceAtomic
    && (s.perCallCapAtomic > 0 ==> amount <= s.perCallCapAtomic)
    && (s.perDayCapAtomic > 0 ==> SpentOn(s, EpochDay(nowMs)) + amount <= s.perDayCapAtomic)
  }

  lemma VerifiedSession(input: SettleInput, b: BackendState, cfg: Config)
    requires VerifyPayment(input, b, cfg).None?
    ensures ParsePayload(input.payload).Ok?
    ensures PayerSession(input) in b.sessions
    ensures WithinLimits(b.sessions[PayerSession(input)], SignedAmount(input), b.nowMs)
  {
    hide ParsePayload;
    hide ParseDetails;
    hide Lower;
    hide AmountOf;
  }

  lemma BuiltParams(p: PaymentPayloadWire, input: SettleInput)
    requires BuildParams(p, input).Ok?
    ensures var params := BuildParams(p, input).value;
            && params.sessionObjectId == p.sessionObjectId
            && 0 <= DebitOf(params) <= params.amountAtomic == AmountOf(p.details)
  {
    hide AmountOf;
    hide IntentCategory;
  }

  lemma SubmitDebits(b: BackendState, p: SubmitParams, cfg: Config)
    requires Keyed(b.sessions)
    ensures var (b1, r) := Submit(b, p, cfg);
            && b1.nowMs == b.nowMs && b1.paused == b.paused && Keyed(b1.sessions)
            && (r.Err? ==> b1.sessions == b.sessions && b1.submitted == b.submitted)
            && (r.Ok? ==>
              && p.sessionObjectId in b.sessions
              && r.value.settledAmountAtomic == DebitOf(p)
              && b1.sessions == b.sessions[
                   p.sessionObjectId := Debited(b.sessions[p.sessionObjectId], DebitOf(p), EpochDay(b.nowMs))])
  {
  }

  /** Money moves only when the settle succeeds, only in the payer's session, and only within the signed ceiling. */
  lemma StepEffect(
    b: BackendState, g: GasState, input: SettleInput, cfg: Config, limits: Limits, checkAt: Readings, recordAt: Readings)
    requires Keyed(b.sessions)
    ensures var (b1, _, r) := SettleStep(b, g, input, cfg, limits, checkAt, recordAt);
            var id := PayerSession(input);
            && b1.nowMs == b.nowMs && b1.paused == b.paused && Keyed(b1.sessions)
            && (r.Refused? ==> b1.sessions == b.sessions && b1.submitted == b.submitted)
            && (r.Settled? ==>
              && id in b.sessions
              && r.result.settledAmountAtomic <= SignedAmount(input)
              && WithinLimits(b.sessions[id], r.result.settledAmountAtomic, b.nowMs)
              && b1.sessions == b.sessions[id := Debited(b.sessions[id], r.result.settledAmountAtomic, EpochDay(b.nowMs))])
  {
    hide VerifyPayment;
    hide ParsePayload;
    hide BuildParams;
    hide Submit;
    hide DebitOf;
    hide Debited;
    hide Keyed;
    hide CheckOf;
    hide Refreshed;
    hide Recorded;
    hide AmountOf;
    hide EpochDay;
    if VerifyPayment(input, b, cfg).None? {
      VerifiedSession(input, b, cfg);
      var p := ParsePayload(input.payload).value;
      if BuildParams(p, input).Ok? {
        BuiltParams(p, input);
        SubmitDebits(b, BuildParams(p, input).value, cfg);
      }
    }
  }

  /** The request carries a signature, good for its payer over its details, and the payer owns what is to be debited. */
  predicate Authorized(input: SettleInput, owner: string, cfg: Config) {
    match ParsePayload(input.payload)
    case Err(_) => false
    case Ok(p) =>
      && cfg.verifyImpl(p.signature, CanonicalMessage(p.details), p.payerAddress)
      && Lower(p.payerAddress) == Lower(owner)
      && p.details.network == cfg.network && p.details.tokenType == cfg.usdsuiTypeTag
  }

  /** Only an authorized request on an unpaused platform, before its quote runs out, settles. */
  lemma SettledWasAuthorized(
    b: BackendState, g: GasState, input: SettleInput, cfg: Config, limits: Limits, checkAt: Readings, recordAt: Readings)
    requires SettleStep(b, g, input, cfg, limits, checkAt, recordAt).2.Settled?
    ensures var id := PayerSession(input);
            && id in b.sessions && Authorized(input, b.sessions[id].ownerAddress, cfg)
            && !b.paused && !Before(ParsePayload(input.payload).value.details.validUntilMs, b.nowMs)
  {
    hide ParsePayload;
    hide ParseDetails;
    hide BuildParams;
    hide Submit;
    hide CheckOf;
    hide Refreshed;
    hide Recorded;
    hide Lower;
    hide CanonicalMessage;
    hide SameDetails;
    hide AmountOf;
  }

  /**
   * What goes to the chain when a settle goes through: one submission, naming payer, session, server and tool of the
   * signed payload, its amount as the ceiling, the input's receipt and success, and the payload's intent with the category
   * from its metadata.
   */
  lemma SubmitsWhatWasSigned(
    b: BackendState, g: GasState, input: SettleInput, cfg: Config, limits: Limits, checkAt: Readings, recordAt: Readings)
    requires SettleStep(b, g, input, cfg, limits, checkAt, recordAt).2.Settled?
    ensures ParsePayload(input.payload).Ok?
    ensures var (b1, _, r) := SettleStep(b, g, input, cfg, limits, checkAt, recordAt);
            var p := ParsePayload(input.payload).value;
            && |b1.submittedParams| == |b.submittedParams| + 1 && b.submittedParams <= b1.submittedParams
            && var sent := b1.submittedParams[|b.submittedParams|];
            && sent.payerAddress == p.payerAddress && sent.sessionObjectId == p.sessionObjectId
            && sent.serverObjectId == p.details.serverObjectId && sent.toolName == p.details.toolName
            && sent.amountAtomic == SignedAmount(input)
            && sent.uptoActualAtomic == (if p.details.scheme == Upto then Some(r.result.settledAmountAtomic) else None)
            && sent.logBlobId == (if input.receiptBlobId.Some? then input.receiptBlobId.value else "")
            && sent.success == (input.success.None? || input.success.value)
            && (sent.intent.Some? <==> p.intentId.Some?)
            && (sent.intent.Some? ==> sent.intent.value == (p.intentId.value, CategoryText(p.details.metadata)))
  {
    hide VerifyPayment;
    hide ParsePayload;
    hide CheckOf;
    hide Refreshed;
    hide Recorded;
    hide AmountOf;
    hide Debited;
    hide EpochDay;
  }

  /** The metadata's `intentCategory`, when there is one and it is a text. */
  function CategoryText(metadata: Option<map<string, Json>>): string {
    if metadata.Some? && "intentCategory" in metadata.value && metadata.value["intentCategory"].JString?
      then metadata.value["intentCategory"].s else ""
  }

  /** The settle's marks on the session and the transaction numbering; the day's spend starts over on a new day. */
  lemma SettledSession(
    b: BackendState, g: GasState, input: SettleInput, cfg: Config, limits: Limits, checkAt: Readings, recordAt: Readings)
    requires Keyed(b.sessions) && SettleStep(b, g, input, cfg, limits, checkAt, recordAt).2.Settled?
    ensures var (b1, _, r) := SettleStep(b, g, input, cfg, limits, checkAt, recordAt);
            var id, amount, today := PayerSession(input), r.result.settledAmountAtomic, b.nowMs / 86_400_000;
            && id in b.sessions && id in b1.sessions
            && b1.sessions[id] == b.sessions[id].(
                 balanceAtomic := b.sessions[id].balanceAtomic - amount,
                 todaySpentAtomic :=
                   if b.sessions[id].todayEpochDay == today then b.sessions[id].todaySpentAtomic + amount else amount,
                 todayEpochDay := today)
            && r.result.serial == b1.settleCounter == b.settleCounter + 1
            && b1.submitted == b.submitted + [r.result]
            && b1.nowMs == b.nowMs && b1.paused == b.paused
  {
    hide VerifyPayment;
    hide ParsePayload;
    hide BuildParams;
    hide CheckOf;
    hide Refreshed;
    hide Recorded;
    hide AmountOf;
    hide WithinLimits;
    VerifiedWhenSettled(b, g, input, cfg, limits, checkAt, recordAt);
    BuiltParams(ParsePayload(input.payload).value, input);
  }

  lemma VerifiedWhenSettled(
    b: BackendState, g: GasState, input: SettleInput, cfg: Config, limits: Limits, checkAt: Readings, recordAt: Readings)
    requires SettleStep(b, g, input, cfg, limits, checkAt, recordAt).2.Settled?
    ensures ParsePayload(input.payload).Ok? && BuildParams(ParsePayload(input.payload).value, input).Ok?
  {
    hide VerifyPayment;
    hide ParsePayload;
    hide BuildParams;
    hide CheckOf;
    hide Refreshed;
    hide Recorded;
    hide Submit;
  }

  /** A settle that is refused says why. */
  lemma RefusedWhy(
    b: BackendState, g: GasState, input: SettleInput, cfg: Config, limits: Limits, checkAt: Readings, recordAt: Readings)
    ensures var (b1, _, r) := SettleStep(b, g, input, cfg, limits, checkAt, recordAt);
            var verified := VerifyPayment(input, b, cfg).None?;
            var check := CheckOf(g, limits, checkAt);
            var built := ParsePayload(input.payload).Ok? && BuildParams(ParsePayload(input.payload).value, input).Ok?;
            var up := verified && check.Allowed? && built;
            && (r == Refused(VerifyFailed) <==> !verified || (check.Allowed? && !built))
            && (r == Refused(RateLimitedCode) <==> verified && check.RateLimited?)
            && (r == Refused(PlatformPausedCode) <==> verified && check.DailyBudgetExhausted?)
            && (r == Refused(GasBudget) <==> up && cfg.failSubmitWith == Some(GasBudgetExceeded))
            && (r == Refused(ChainFailed) <==> up && cfg.failSubmitWith == Some(ExecutionFailed))
            && (r == Refused(InternalError) <==> up && cfg.failSubmitWith in {Some(RpcUnreachable), Some(Unknown)})
            && (r.Settled? <==> up && cfg.failSubmitWith.None?)
            && |b1.submittedParams| == |b.submittedParams| + (if up then 1 else 0)
            && (r.Refused? ==> b1 == b.(submittedParams := b1.submittedParams))
  {
    hide VerifyPayment;
    hide ParsePayload;
    hide BuildParams;
    hide CheckOf;
    hide Refreshed;
    hide Recorded;
    hide Debited;
    hide EpochDay;
    hide WithinLimits;
    if VerifyPayment(input, b, cfg).None? {
      VerifiedSession(input, b, cfg);
      var p := ParsePayload(input.payload).value;
      if BuildParams(p, input).Ok? {
        BuiltParams(p, input);
      }
    }
  }

  /** The limiter records a slot exactly for a settle that went through, and only after its check allowed it. */
  lemma StepGas(
    b: BackendState, g: GasState, input: SettleInput, cfg: Config, limits: Limits, checkAt: Readings, recordAt: Readings)
    ensures var (_, g1, r) := SettleStep(b, g, input, cfg, limits, checkAt, recordAt);
            && (r.Settled? ==> CheckOf(g, limits, checkAt).Allowed? && g1 == Recorded(Refreshed(g, checkAt), recordAt, 0))
            && (r.Refused? ==> g1 == if VerifyPayment(input, b, cfg).Some? then g else Refreshed(g, checkAt))
  {
  }

  /** An `upto` settle reports its ceiling, and what it took plus what it left is that ceiling. */
  lemma UptoSettledPlusUnused(
    b: BackendState, g: GasState, input: SettleInput, cfg: Config, limits: Limits, checkAt: Readings, recordAt: Readings)
    requires SettleStep(b, g, input, cfg, limits, checkAt, recordAt).2.Settled?
    ensures var r := SettleStep(b, g, input, cfg, limits, checkAt, recordAt).2.result;
            var p := ParsePayload(input.payload);
            && p.Ok?
            && (r.quotedMaxAtomic.Some? <==> p.value.details.scheme == Upto)
            && (r.unusedAtomic.Some? <==> r.quotedMaxAtomic.Some?)
            && (r.unusedAtomic.Some? ==>
              r.quotedMaxAtomic.value == SignedAmount(input) == r.settledAmountAtomic + r.unusedAtomic.value)
            && (r.quotedMaxAtomic.None? ==> r.settledAmountAtomic == SignedAmount(input))
  {
  }
}
