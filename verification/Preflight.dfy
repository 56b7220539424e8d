/** The gateway's fast-fail checks, and how they line up with the facilitator's session policy. */
module Preflights {
  import opened Common
  import opened Sessions

  /** The gateway's mirror of a session. */
  datatype AuthContext = AuthContext(
    ownerAddress: string, sessionObjectId: string, active: bool, balanceAtomic: int,
    perCallCapAtomic: int, perDayCapAtomic: int, todaySpentAtomic: int, todayEpochDay: int,
    scopedServerObjectIds: seq<string>, expiresAtMs: Option<int>)

  datatype ResolvedServer = ResolvedServer(serverObjectId: string, active: bool)

  datatype GatewayError =
    | SessionIsInactive | SessionExpired | ServerNotFound | ServerNotScoped | ServerError
    | CallCapExceeded | BalanceTooLow | DayCapExceeded

  datatype Input = Input(
    auth: AuthContext, server: ResolvedServer, toolPriceAtomic: int, chargeAtomic: int, isStream: bool, nowMs: int)

  /** None when the call may go ahead. */
  function Preflight(i: Input): Option<GatewayError> {
    var a := i.auth;
    if !a.active then Some(SessionIsInactive)
    else if a.expiresAtMs.Some? && i.nowMs >= a.expiresAtMs.value then Some(SessionExpired)
    else if !i.server.active then Some(ServerNotFound)
    else if a.scopedServerObjectIds != [] && i.server.serverObjectId !in a.scopedServerObjectIds then Some(ServerNotScoped)
    else if i.chargeAtomic == 0 then None
    else if !i.isStream && i.chargeAtomic > i.toolPriceAtomic then Some(ServerError)
    else if a.perCallCapAtomic > 0 && i.chargeAtomic > a.perCallCapAtomic then Some(CallCapExceeded)
    else if a.balanceAtomic < i.chargeAtomic then Some(BalanceTooLow)
    else
      var today := i.nowMs / DAY_MS;
      var spentToday := if a.todayEpochDay == today then a.todaySpentAtomic else 0;
      if a.perDayCapAtomic > 0 && spentToday + i.chargeAtomic > a.perDayCapAtomic then Some(DayCapExceeded) else None
  }

  /** The checks in the source's order: an error is that of the first guard that fails. */
  lemma PreflightGuards(i: Input)
    ensures var a, money := i.auth, i.chargeAtomic != 0;
            var active := Guard(None, !a.active, SessionIsInactive);
            var expiry := Guard(active, a.expiresAtMs.Some? && a.expiresAtMs.value <= i.nowMs, SessionExpired);
            var server := Guard(expiry, !i.server.active, ServerNotFound);
            var scope := Guard(
              server, a.scopedServerObjectIds != [] && i.server.serverObjectId !in a.scopedServerObjectIds, ServerNotScoped);
            var price := Guard(scope, money && !i.isStream && i.chargeAtomic > i.toolPriceAtomic, ServerError);
            var call := Guard(price, money && a.perCallCapAtomic > 0 && i.chargeAtomic > a.perCallCapAtomic, CallCapExceeded);
            var balance := Guard(call, money && a.balanceAtomic < i.chargeAtomic, BalanceTooLow);
            var day := Guard(
              balance,
              money && a.perDayCapAtomic > 0
              && (if a.todayEpochDay == i.nowMs / 86_400_000 then a.todaySpentAtomic else 0) + i.chargeAtomic > a.perDayCapAtomic,
              DayCapExceeded);
            Preflight(i) == day
  {
  }

  /** The mirror shows what the chain holds. */
  predicate Mirrors(a: AuthContext, s: SessionView) {
    && a.ownerAddress == s.ownerAddress && a.sessionObjectId == s.sessionObjectId && a.active == s.active
    && a.balanceAtomic == s.balanceAtomic && a.perCallCapAtomic == s.perCallCapAtomic
    && a.perDayCapAtomic == s.perDayCapAtomic && a.todaySpentAtomic == s.todaySpentAtomic
    && a.todayEpochDay == s.todayEpochDay && a.scopedServerObjectIds == s.scopedServerObjectIds
    && a.expiresAtMs == s.expiresAtMs
  }

  /** The session checks the facilitator will make for this call, paid by the session's owner. */
  function ChainCheck(i: Input, s: SessionView): Option<InvalidReason> {
    SessionCheck(Some(s), i.auth.ownerAddress, i.server.serverObjectId, i.chargeAtomic, i.nowMs)
  }

  /**
   * For a non-zero charge on a faithful mirror, preflight accepts exactly when the facilitator's session checks pass,
   * the server is active, a unary charge is within the list price, and the session does not expire this very millisecond.
   */
  lemma PreflightMatchesChain(i: Input, s: SessionView)
    requires Mirrors(i.auth, s) && i.chargeAtomic != 0
    ensures Preflight(i).None? <==>
      && ChainCheck(i, s).None? && i.server.active
      && (i.isStream || i.chargeAtomic <= i.toolPriceAtomic)
      && s.expiresAtMs != Some(i.nowMs)
  {
    assert i.nowMs / DAY_MS == EpochDay(i.nowMs);
  }

  /** A zero charge skips the money checks: the chain accepts it exactly when today's spend is within the day cap already. */
  lemma FreeCallMatchesChain(i: Input, s: SessionView)
    requires Mirrors(i.auth, s) && i.chargeAtomic == 0 && Preflight(i).None?
    ensures ChainCheck(i, s).None? <==>
      && s.balanceAtomic >= 0
      && (s.perDayCapAtomic > 0 ==> SpentOn(s, EpochDay(i.nowMs)) <= s.perDayCapAtomic)
  {
    assert Lower(i.auth.ownerAddress) == Lower(s.ownerAddress);
  }

  function MirrorOf(s: SessionView): AuthContext {
    AuthContext(
      s.ownerAddress, s.sessionObjectId, s.active, s.balanceAtomic, s.perCallCapAtomic, s.perDayCapAtomic,
      s.todaySpentAtomic, s.todayEpochDay, s.scopedServerObjectIds, s.expiresAtMs)
  }

  /** In the millisecond a session expires, the gateway refuses a call the chain would still take. */
  lemma ExpiryMillisecond()
    ensures var s := SessionView("0x5", "0xa", true, 10, 0, 0, 0, 0, [], Some(7));
            var i := Input(MirrorOf(s), ResolvedServer("0x1", true), 1, 1, false, 7);
            Mirrors(i.auth, s) && Preflight(i) == Some(SessionExpired) && ChainCheck(i, s).None?
  {
  }

  /** A free call on a session that overspent its day cap passes the gateway and not the chain. */
  lemma FreeCallOverCap()
    ensures var s := SessionView("0x5", "0xa", true, 10, 0, 1, 2, 0, [], None);
            var i := Input(MirrorOf(s), ResolvedServer("0x1", true), 1, 0, false, 7);
            Mirrors(i.auth, s) && Preflight(i).None? && ChainCheck(i, s) == Some(PerDayCapExceeded)
  {
  }
}
