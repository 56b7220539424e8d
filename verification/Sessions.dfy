/** Payment sessions: the verification policy, the two schemes, and the chain's debit. */
module Sessions {
  import opened Common
  import opened Decimal
  import opened Json
  import opened X402
  import opened Canonical

  datatype SessionView = SessionView(
    sessionObjectId: string, ownerAddress: string, active: bool, balanceAtomic: int,
    perCallCapAtomic: int, perDayCapAtomic: int, todaySpentAtomic: int, todayEpochDay: int,
    scopedServerObjectIds: seq<string>, expiresAtMs: Option<int>)

  datatype InvalidReason =
    | MalformedPayload | UnsupportedNetwork | UnsupportedScheme | ExpiredQuote | PlatformPaused
    | InvalidSignature | SessionNotFound | SessionInactive | InsufficientBalance
    | PerCallCapExceeded | PerDayCapExceeded | ServerNotAuthorized

  datatype ChainErrorCode = RpcUnreachable | ExecutionFailed | GasBudgetExceeded | Unknown

  /** What a deployment fixes: its network, its token, its signature check, and a fault to inject at submit. */
  datatype Config = Config(
    network: Network, usdsuiTypeTag: string,
    verifyImpl: (string, string, string) -> bool, failSubmitWith: Option<ChainErrorCode>)

  datatype SettleInput = SettleInput(
    payload: Json, details: Json, uptoActual: Option<int>, receiptBlobId: Option<string>, success: Option<bool>)

  datatype SubmitParams = SubmitParams(
    payerAddress: string, sessionObjectId: string, serverObjectId: string, toolName: string,
    amountAtomic: int, uptoActualAtomic: Option<int>, intent: Option<(string, string)>,
    logBlobId: string, success: bool)

  /** `serial` numbers the transaction and its receipt. */
  datatype SubmitResult = SubmitResult(
    serial: nat, settledAmountAtomic: int, quotedMaxAtomic: Option<int>, unusedAtomic: Option<int>)

  datatype BackendState = BackendState(
    sessions: map<string, SessionView>, paused: bool, nowMs: int, settleCounter: nat,
    submitted: seq<SubmitResult>, submittedParams: seq<SubmitParams>)

  // ----- verification policy -----

  function LowerChar(c: char): char { if 'A' <= c <= 'Z' then (c as int + 32) as char else c }

  function Lower(s: string): string { seq(|s|, i requires 0 <= i < |s| => LowerChar(s[i])) }

  /** Spending counts toward the day cap only on the day it was recorded for. */
  function SpentOn(s: SessionView, today: int): int { if today == s.todayEpochDay then s.todaySpentAtomic else 0 }

  /** The checks on chain state, in order; None when all pass. */
  function SessionCheck(
    session: Option<SessionView>, payer: string, server: string, amount: int, nowMs: int): Option<InvalidReason>
  {
    match session
    case None => Some(SessionNotFound)
    case Some(s) =>
      if !s.active then Some(SessionInactive)
      else if Lower(s.ownerAddress) != Lower(payer) then Some(SessionInactive)
      else if s.expiresAtMs.Some? && s.expiresAtMs.value < nowMs then Some(SessionInactive)
      else if s.balanceAtomic < amount then Some(InsufficientBalance)
      else if s.perCallCapAtomic > 0 && amount > s.perCallCapAtomic then Some(PerCallCapExceeded)
      else if s.perDayCapAtomic > 0 && SpentOn(s, EpochDay(nowMs)) + amount > s.perDayCapAtomic then
        Some(PerDayCapExceeded)
      else if s.scopedServerObjectIds != [] && server !in s.scopedServerObjectIds then Some(ServerNotAuthorized)
      else None
  }

  function GetSession(b: BackendState, id: string): Option<SessionView> {
    if id in b.sessions then Some(b.sessions[id]) else None
  }

  function VerifyPayment(input: SettleInput, b: BackendState, cfg: Config): Option<InvalidReason> {
    match (ParsePayload(input.payload), ParseDetails(Some(input.details)))
    case (Ok(p), Ok(echoed)) =>
      var d := p.details;
      if d.network != cfg.network then Some(UnsupportedNetwork)
      else if !SameDetails(d, echoed) then Some(MalformedPayload)
      else if d.tokenType != cfg.usdsuiTypeTag then Some(UnsupportedScheme)
      else if Before(d.validUntilMs, b.nowMs) then Some(ExpiredQuote)
      else if b.paused then Some(PlatformPaused)
      else if !cfg.verifyImpl(p.signature, CanonicalMessage(d), p.payerAddress) then Some(InvalidSignature)
      else SessionCheck(GetSession(b, p.sessionObjectId), p.payerAddress, d.serverObjectId, AmountOf(d), b.nowMs)
    case _ => Some(MalformedPayload)
  }

  /** `BigInt` of a parsed amount. */
  function AmountOf(d: PaymentDetailsWire): nat { if IsCanonical(d.amountAtomic) then Value(d.amountAtomic) else 0 }

  // ----- schemes -----

  function IntentCategory(p: PaymentPayloadWire): string {
    match p.details.metadata
    case Some(m) => (match Field(m, "intentCategory") case Some(JString(s)) => s case _ => "")
    case None => ""
  }

  function BaseParams(p: PaymentPayloadWire, input: SettleInput): SubmitParams {
    SubmitParams(
      p.payerAddress, p.sessionObjectId, p.details.serverObjectId, p.details.toolName, AmountOf(p.details), None,
      if p.intentId.Some? then Some((p.intentId.value, IntentCategory(p))) else None,
      if input.receiptBlobId.Some? then input.receiptBlobId.value else "",
      if input.success.Some? then input.success.value else true)
  }

  /** Err where the scheme throws: an `upto` actual outside 0..quoted maximum. */
  function BuildParams(p: PaymentPayloadWire, input: SettleInput): Result<SubmitParams, string> {
    var base := BaseParams(p, input);
    match p.details.scheme
    case Exact => Ok(base)
    case Upto =>
      var actual := if input.uptoActual.Some? then input.uptoActual.value else 0;
      if actual < 0 then Err("upto actualAtomic must be non-negative")
      else if actual > base.amountAtomic then Err("upto actualAtomic exceeds quoted max")
      else Ok(base.(uptoActualAtomic := Some(actual)))
  }

  // ----- the chain's debit -----

  function DebitOf(p: SubmitParams): int {
    if p.uptoActualAtomic.Some? then p.uptoActualAtomic.value else p.amountAtomic
  }

  function Debited(s: SessionView, debit: int, today: int): SessionView {
    s.(balanceAtomic := s.balanceAtomic - debit,
       todaySpentAtomic := SpentOn(s, today) + debit,
       todayEpochDay := today)
  }

  function Submit(b: BackendState, p: SubmitParams, cfg: Config): (BackendState, Result<SubmitResult, ChainErrorCode>) {
    var b1 := b.(submittedParams := b.submittedParams + [p]);
    if cfg.failSubmitWith.Some? then (b1, Err(cfg.failSubmitWith.value))
    else if p.sessionObjectId !in b.sessions then (b1, Err(ExecutionFailed))
    else if p.uptoActualAtomic.Some? && DebitOf(p) > p.amountAtomic then (b1, Err(ExecutionFailed))
    else
      var s := b.sessions[p.sessionObjectId];
      var r := SubmitResult(
        b.settleCounter + 1, DebitOf(p),
        if p.uptoActualAtomic.Some? then Some(p.amountAtomic) else None,
        if p.uptoActualAtomic.Some? then Some(Max(p.amountAtomic - DebitOf(p), 0)) else None);
      (b1.(sessions := b.sessions[s.sessionObjectId := Debited(s, DebitOf(p), EpochDay(b.nowMs))],
           settleCounter := b.settleCounter + 1,
           submitted := b.submitted + [r]), Ok(r))
  }

  /** Sessions are stored under their own ids. */
  predicate Keyed(sessions: map<string, SessionView>) {
    forall id | id in sessions :: sessions[id].sessionObjectId == id
  }

  // ----- what the policy says, guard by guard -----

  /** One letter is the other in upper case. */
  predicate UpperOf(a: char, b: char) { 'A' <= a <= 'Z' && b as int == a as int + 32 }

  /** Addresses are compared without regard to the case of their ASCII letters. */
  lemma LowerIgnoresCase(s: string, t: string)
    ensures Lower(s) == Lower(t) <==>
      && |s| == |t|
      && forall i | 0 <= i < |s| :: s[i] == t[i] || UpperOf(s[i], t[i]) || UpperOf(t[i], s[i])
  {
    if |s| == |t| {
      assert forall i | 0 <= i < |s| :: Lower(s)[i] == LowerChar(s[i]) && Lower(t)[i] == LowerChar(t[i]);
      if forall i | 0 <= i < |s| :: s[i] == t[i] || UpperOf(s[i], t[i]) || UpperOf(t[i], s[i]) {
        assert Lower(s) == Lower(t);
      }
    } else {
      assert |Lower(s)| != |Lower(t)|;
    }
  }

  /** The checks on a session, in the source's order; a new day starts the day's spend at nothing. */
  lemma SessionGuards(s: SessionView, payer: string, server: string, amount: int, nowMs: int)
    ensures var day := nowMs / 86_400_000;
            var inactive := Guard(None, !s.active, SessionInactive);
            var owner := Guard(inactive, Lower(s.ownerAddress) != Lower(payer), SessionInactive);
            var expiry := Guard(owner, s.expiresAtMs.Some? && s.expiresAtMs.value < nowMs, SessionInactive);
            var balance := Guard(expiry, s.balanceAtomic < amount, InsufficientBalance);
            var perCall := Guard(balance, s.perCallCapAtomic > 0 && amount > s.perCallCapAtomic, PerCallCapExceeded);
            var perDay := Guard(
              perCall,
              s.perDayCapAtomic > 0 && (if s.todayEpochDay == day then s.todaySpentAtomic else 0) + amount > s.perDayCapAtomic,
              PerDayCapExceeded);
            var scope := Guard(perDay, s.scopedServerObjectIds != [] && server !in s.scopedServerObjectIds, ServerNotAuthorized);
            SessionCheck(Some(s), payer, server, amount, nowMs) == scope
  {
  }

  /** Verification as a whole: a reason is that of the first guard that fails. */
  lemma VerifyGuards(input: SettleInput, b: BackendState, cfg: Config)
    ensures ParsePayload(input.payload).Err? || ParseDetails(Some(input.details)).Err? ==>
      VerifyPayment(input, b, cfg) == Some(MalformedPayload)
    ensures ParsePayload(input.payload).Ok? && ParseDetails(Some(input.details)).Ok? ==>
      var p, echoed := ParsePayload(input.payload).value, ParseDetails(Some(input.details)).value;
      var d := p.details;
      var known := p.sessionObjectId in b.sessions;
      var network := Guard(None, d.network != cfg.network, UnsupportedNetwork);
      var same := Guard(network, !SameDetails(d, echoed), MalformedPayload);
      var token := Guard(same, d.tokenType != cfg.usdsuiTypeTag, UnsupportedScheme);
      var quote := Guard(token, Before(d.validUntilMs, b.nowMs), ExpiredQuote);
      var paused := Guard(quote, b.paused, PlatformPaused);
      var signature := Guard(
        paused, !cfg.verifyImpl(p.signature, CanonicalMessage(d), p.payerAddress), InvalidSignature);
      var session := Guard(signature, !known, SessionNotFound);
      VerifyPayment(input, b, cfg)
      == if session.Some? then session
         else SessionCheck(Some(b.sessions[p.sessionObjectId]), p.payerAddress, d.serverObjectId, Value(d.amountAtomic), b.nowMs)
  {
    hide SessionCheck;
    hide SameDetails;
    hide CanonicalMessage;
    hide ParseDetails;
    hide ParsePayload;
    hide Before;
    if ParsePayload(input.payload).Ok? {
      ParsedAmountReads(input.payload);
    }
    hide IsCanonical;
    MissingSession(input, b);
  }

  lemma ParsedAmountReads(json: Json)
    requires ParsePayload(json).Ok?
    ensures AllDigits(ParsePayload(json).value.details.amountAtomic)
    ensures AmountOf(ParsePayload(json).value.details) == Value(ParsePayload(json).value.details.amountAtomic)
  {
    hide ParsePayload;
    ParsedIsWellFormed(json);
  }

  lemma MissingSession(input: SettleInput, b: BackendState)
    ensures forall payer, server, amount: int :: SessionCheck(None, payer, server, amount, b.nowMs) == Some(SessionNotFound)
  {
  }
}
