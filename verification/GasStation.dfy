/** The sponsored-gas limiter: a sliding one-minute window and a daily budget. */
module GasStations {
  import opened Common

  const WINDOW_MS := 60_000

  datatype Limits = Limits(ratePerMinute: int, dailyBudgetMist: int)

  datatype Check = Allowed | RateLimited(retryAfterMs: int) | DailyBudgetExhausted

  datatype GasState = GasState(timestamps: seq<int>, spentTodayMist: int, utcDay: int)

  /** Drop leading timestamps older than the cutoff. */
  function Trim(ts: seq<int>, cutoff: int): seq<int> {
    if ts == [] || ts[0] >= cutoff then ts else Trim(ts[1..], cutoff)
  }

  /**
   * The clock is read afresh wherever it is needed: to roll the day, to trim the window, and last for the wait of a
   * refused check or for the timestamp of a record.
   */
  datatype Readings = Readings(roll: int, trim: int, last: int)

  /** The clock does not run back within a call. */
  predicate Ordered(at: Readings) { at.roll <= at.trim <= at.last }

  /** A clock that stands still within a call. */
  function Still(nowMs: int): Readings { Readings(nowMs, nowMs, nowMs) }

  /** Both windows brought up to date. */
  function Refreshed(g: GasState, at: Readings): GasState {
    GasState(
      Trim(g.timestamps, at.trim - WINDOW_MS),
      if EpochDay(at.roll) != g.utcDay then 0 else g.spentTodayMist,
      EpochDay(at.roll))
  }

  function CheckOf(g: GasState, limits: Limits, at: Readings): Check {
    var r := Refreshed(g, at);
    if |r.timestamps| >= limits.ratePerMinute then
      RateLimited(if r.timestamps == [] then WINDOW_MS else WINDOW_MS - (at.last - r.timestamps[0]))
    else if r.spentTodayMist >= limits.dailyBudgetMist then DailyBudgetExhausted
    else Allowed
  }

  function Recorded(g: GasState, at: Readings, gasMist: int): GasState {
    var r := Refreshed(g, at);
    GasState(r.timestamps + [at.last], r.spentTodayMist + Max(gasMist, 0), r.utcDay)
  }

  function Fresh(nowMs: int): GasState { GasState([], 0, EpochDay(nowMs)) }

  class GasStation {
    const limits: Limits
    var requestTimestamps: seq<int>
    var spentTodayMist: int
    var currentUtcDay: int

    function State(): GasState
      reads this
    {
      GasState(requestTimestamps, spentTodayMist, currentUtcDay)
    }

    constructor (limits: Limits, nowMs: int)
      ensures this.limits == limits && State() == Fresh(nowMs)
    {
      this.limits := limits;
      requestTimestamps := [];
      spentTodayMist := 0;
      currentUtcDay := nowMs / DAY_MS;
    }

    method TrimRateWindow(nowMs: int)
      modifies this`requestTimestamps
      ensures requestTimestamps == Trim(old(requestTimestamps), nowMs - WINDOW_MS)
    {
      var cutoff := nowMs - WINDOW_MS;
      while |requestTimestamps| > 0
        invariant Trim(requestTimestamps, cutoff) == Trim(old(requestTimestamps), cutoff)
      {
        if requestTimestamps[0] >= cutoff {
          break;
        }
        requestTimestamps := requestTimestamps[1..];
      }
    }

    method RollDailyWindow(nowMs: int)
      modifies this`spentTodayMist, this`currentUtcDay
      ensures currentUtcDay == EpochDay(nowMs)
      ensures spentTodayMist == if old(currentUtcDay) == EpochDay(nowMs) then old(spentTodayMist) else 0
    {
      var today := nowMs / DAY_MS;
      if today != currentUtcDay {
        currentUtcDay := today;
        spentTodayMist := 0;
      }
    }

    /** Says whether a settle may go ahead; only brings the windows up to date. */
    method CheckNow(at: Readings) returns (c: Check)
      modifies this
      ensures c == CheckOf(old(State()), limits, at)
      ensures State() == Refreshed(old(State()), at)
    {
      RollDailyWindow(at.roll);
      TrimRateWindow(at.trim);
      if |requestTimestamps| >= limits.ratePerMinute {
        return RateLimited(if |requestTimestamps| == 0 then WINDOW_MS else WINDOW_MS - (at.last - requestTimestamps[0]));
      }
      if spentTodayMist >= limits.dailyBudgetMist {
        return DailyBudgetExhausted;
      }
      return Allowed;
    }

    method Record(at: Readings, gasMist: int)
      modifies this
      ensures State() == Recorded(old(State()), at, gasMist)
    {
      RollDailyWindow(at.roll);
      TrimRateWindow(at.trim);
      requestTimestamps := requestTimestamps + [at.last];
      if gasMist > 0 {
        spentTodayMist := spentTodayMist + gasMist;
      }
    }
  }

  // ----- what trimming keeps -----

  lemma {:induction false} TrimSplit(ts: seq<int>, cutoff: int) returns (k: nat)
    ensures k <= |ts| && Trim(ts, cutoff) == ts[k..]
    ensures forall i | 0 <= i < k :: ts[i] < cutoff
    ensures k < |ts| ==> ts[k] >= cutoff
  {
    if ts == [] || ts[0] >= cutoff {
      k := 0;
    } else {
      var j := TrimSplit(ts[1..], cutoff);
      k := j + 1;
      forall i | 0 <= i < k ensures ts[i] < cutoff {
        assert i > 0 ==> ts[i] == ts[1..][i - 1];
      }
    }
  }

  predicate Sorted(ts: seq<int>) { forall i, j | 0 <= i < j < |ts| :: ts[i] <= ts[j] }

  /** On a clock that never runs back, trimming keeps exactly the timestamps inside the window. */
  lemma TrimKeepsWindow(ts: seq<int>, cutoff: int)
    requires Sorted(ts)
    ensures Trim(ts, cutoff) == Within(ts, cutoff)
  {
    var k := TrimSplit(ts, cutoff);
    WithinSplit(ts, cutoff, k);
  }

  /** The timestamps not older than the cutoff. */
  function Within(ts: seq<int>, cutoff: int): seq<int> {
    if ts == [] then [] else (if ts[0] >= cutoff then [ts[0]] else []) + Within(ts[1..], cutoff)
  }

  lemma {:induction false} WithinSplit(ts: seq<int>, cutoff: int, k: nat)
    requires Sorted(ts) && k <= |ts|
    requires forall i | 0 <= i < k :: ts[i] < cutoff
    requires k < |ts| ==> ts[k] >= cutoff
    ensures Within(ts, cutoff) == ts[k..]
  {
    if ts != [] {
      if k == 0 {
        WithinSplit(ts[1..], cutoff, 0);
        assert ts == [ts[0]] + ts[1..];
      } else {
        WithinSplit(ts[1..], cutoff, k - 1);
      }
    }
  }

  /** How many timestamps are not older than the cutoff. */
  function CountSince(ts: seq<int>, cutoff: int): nat {
    if ts == [] then 0 else (if ts[0] >= cutoff then 1 else 0) + CountSince(ts[1..], cutoff)
  }

  lemma {:induction false} WithinCounts(ts: seq<int>, cutoff: int)
    ensures |Within(ts, cutoff)| == CountSince(ts, cutoff)
  {
    if ts != [] {
      WithinCounts(ts[1..], cutoff);
    }
  }

  /** What was spent on the day of a reading. */
  function SpentOfDay(g: GasState, nowMs: int): int { if g.utcDay == nowMs / 86_400_000 then g.spentTodayMist else 0 }

  /**
   * The limiter's answer from what it recorded: a call is rate limited exactly when the last 60 seconds hold the rate
   * already, and told to wait until the oldest of them is 60 seconds old, or 60 seconds when there is none; otherwise it
   * is over budget exactly when the UTC day has spent its budget.
   */
  lemma CheckIff(g: GasState, limits: Limits, at: Readings)
    requires Sorted(g.timestamps)
    ensures CheckOf(g, limits, at).RateLimited? <==> CountSince(g.timestamps, at.trim - 60_000) >= limits.ratePerMinute
    ensures CheckOf(g, limits, at).DailyBudgetExhausted? <==>
      CountSince(g.timestamps, at.trim - 60_000) < limits.ratePerMinute && SpentOfDay(g, at.roll) >= limits.dailyBudgetMist
    ensures CheckOf(g, limits, at).RateLimited? ==>
      var kept := Within(g.timestamps, at.trim - 60_000);
      at.last + CheckOf(g, limits, at).retryAfterMs == 60_000 + (if kept == [] then at.last else kept[0])
  {
    TrimKeepsWindow(g.timestamps, at.trim - 60_000);
    WithinCounts(g.timestamps, at.trim - 60_000);
  }

  /** Recording a call adds one timestamp to what is still in the window, and its gas, when positive, to its day. */
  lemma RecordAdds(g: GasState, at: Readings, gasMist: int)
    requires Sorted(g.timestamps)
    ensures var r := Recorded(g, at, gasMist);
            && r.timestamps == Within(g.timestamps, at.trim - 60_000) + [at.last]
            && r.utcDay == at.roll / 86_400_000
            && r.spentTodayMist == SpentOfDay(g, at.roll) + (if gasMist > 0 then gasMist else 0)
  {
    TrimKeepsWindow(g.timestamps, at.trim - 60_000);
  }

  /** The promised wait of a refused check, as measured from the reading it was computed at. */
  function WaitOf(g: GasState, limits: Limits, now: Readings): int
    requires CheckOf(g, limits, now).RateLimited?
  {
    CheckOf(g, limits, now).retryAfterMs
  }

  /**
   * On a clock that never runs back, the promised wait is at most the window length and is exact: a later check, with
   * nothing recorded in between, is still rate limited while it trims no later than that wait and no longer after it.
   * The wait is not negative exactly when it was computed before the oldest timestamp kept had left the window.
   */
  lemma RetryAfterExact(g: GasState, limits: Limits, now: Readings, later: Readings)
    requires Sorted(g.timestamps) && |g.timestamps| <= limits.ratePerMinute && limits.ratePerMinute > 0
    requires Ordered(now) && now.last <= later.trim && forall t | t in g.timestamps :: t <= now.roll
    requires CheckOf(g, limits, now).RateLimited?
    ensures WaitOf(g, limits, now) <= WINDOW_MS
    ensures CheckOf(Refreshed(g, now), limits, later).RateLimited? <==> later.trim - now.last <= WaitOf(g, limits, now)
    ensures g.timestamps != [] && (WaitOf(g, limits, now) >= 0 <==> now.last <= g.timestamps[0] + WINDOW_MS)
  {
    var k := TrimSplit(g.timestamps, now.trim - WINDOW_MS);
    var r := Refreshed(g, now).timestamps;
    assert k == 0 && r == g.timestamps;
    assert r[0] in g.timestamps;
    var j := TrimSplit(r, later.trim - WINDOW_MS);
  }

  /** When the clock moves between trimming and computing the wait, the wait can be negative. */
  lemma WaitCanBeNegative()
    ensures CheckOf(GasState([0], 0, 0), Limits(1, 1), Readings(60_000, 60_000, 60_001)) == RateLimited(-1)
  {
    assert Trim([0], 0) == [0];
  }

  // ----- the daily budget -----

  /** One sponsored call: the limiter is asked, and when it allows the call, told what the call cost. */
  datatype SponsoredCall = SponsoredCall(checkAt: Readings, recordAt: Readings, gasMist: int)

  /** What was recorded, and on which day. */
  datatype Spend = Spend(day: int, gasMist: int)

  function CallStep(g: GasState, c: SponsoredCall, limits: Limits): (GasState, seq<Spend>) {
    if CheckOf(g, limits, c.checkAt).Allowed? then
      (Recorded(Refreshed(g, c.checkAt), c.recordAt, c.gasMist), [Spend(EpochDay(c.recordAt.roll), Max(c.gasMist, 0))])
    else (Refreshed(g, c.checkAt), [])
  }

  function CallRun(g: GasState, calls: seq<SponsoredCall>, limits: Limits): (GasState, seq<Spend>) {
    if calls == [] then (g, []) else
    var (g1, log) := CallRun(g, calls[..|calls| - 1], limits);
    var (g2, more) := CallStep(g1, calls[|calls| - 1], limits);
    (g2, log + more)
  }

  function DaySpend(log: seq<Spend>, day: int): int {
    if log == [] then 0 else
    DaySpend(log[..|log| - 1], day) + (if log[|log| - 1].day == day then log[|log| - 1].gasMist else 0)
  }

  /** What a day had spent before its last call; None when it had no call. */
  function BeforeLast(log: seq<Spend>, day: int): Option<int> {
    if log == [] then None
    else if log[|log| - 1].day == day then Some(DaySpend(log[..|log| - 1], day))
    else BeforeLast(log[..|log| - 1], day)
  }

  /** Each call checks no later than it records, and no earlier than the one before it recorded. */
  predicate CallsForward(calls: seq<SponsoredCall>, start: int) {
    forall i | 0 <= i < |calls| ::
      && Ordered(calls[i].checkAt) && Ordered(calls[i].recordAt)
      && start <= calls[i].checkAt.roll && calls[i].checkAt.last <= calls[i].recordAt.roll
      && (i > 0 ==> calls[i - 1].recordAt.last <= calls[i].checkAt.roll)
  }

  /** What the limiter knows of the log, and what the log keeps for one day. */
  predicate Budgeted(g: GasState, log: seq<Spend>, limits: Limits, day: int) {
    && (forall e | e in log :: e.day <= g.utcDay && e.gasMist >= 0)
    && g.spentTodayMist == DaySpend(log, g.utcDay) >= 0
    && (BeforeLast(log, day).Some? ==> BeforeLast(log, day).value < limits.dailyBudgetMist)
  }

  lemma {:induction false} NothingYetOn(log: seq<Spend>, day: int)
    requires forall e | e in log :: e.day < day
    ensures DaySpend(log, day) == 0
  {
    if log != [] {
      assert log[|log| - 1] in log;
      NothingYetOn(log[..|log| - 1], day);
    }
  }

  lemma RefreshBudgeted(g: GasState, log: seq<Spend>, limits: Limits, day: int, now: Readings)
    requires Budgeted(g, log, limits, day) && g.utcDay <= EpochDay(now.roll)
    ensures Budgeted(Refreshed(g, now), log, limits, day)
    ensures Refreshed(g, now).spentTodayMist <= g.spentTodayMist
  {
    hide Trim;
    hide EpochDay;
    if g.utcDay < EpochDay(now.roll) {
      NothingYetOn(log, EpochDay(now.roll));
    }
  }

  lemma RecordBudgeted(g: GasState, log: seq<Spend>, limits: Limits, day: int, now: Readings, gasMist: int)
    requires Budgeted(g, log, limits, day) && g.utcDay <= EpochDay(now.roll) && g.spentTodayMist < limits.dailyBudgetMist
    ensures Budgeted(Recorded(g, now, gasMist), log + [Spend(EpochDay(now.roll), Max(gasMist, 0))], limits, day)
  {
    hide Trim;
    hide EpochDay;
    RefreshBudgeted(g, log, limits, day, now);
    assert (log + [Spend(EpochDay(now.roll), Max(gasMist, 0))])[..|log|] == log;
  }

  lemma CallBudgeted(g: GasState, c: SponsoredCall, log: seq<Spend>, limits: Limits, day: int)
    requires Budgeted(g, log, limits, day) && g.utcDay <= EpochDay(c.checkAt.roll)
    requires c.checkAt.roll <= c.recordAt.roll
    ensures var (g1, more) := CallStep(g, c, limits);
            && Budgeted(g1, log + more, limits, day)
            && g1.utcDay == EpochDay(if more == [] then c.checkAt.roll else c.recordAt.roll)
  {
    hide Budgeted;
    hide Trim;
    hide EpochDay;
    RefreshBudgeted(g, log, limits, day, c.checkAt);
    EpochDayMonotone(c.checkAt.roll, c.recordAt.roll);
    if CheckOf(g, limits, c.checkAt).Allowed? {
      RecordBudgeted(Refreshed(g, c.checkAt), log, limits, day, c.recordAt, c.gasMist);
    } else {
      assert log + [] == log;
    }
  }

  /**
   * Over every sequence of sponsored calls on a clock that never runs back: before its last call a day had spent less
   * than the daily budget, so only a day's last call can take it past the budget.
   */
  lemma {:induction false} BudgetOverrunByLastOnly(calls: seq<SponsoredCall>, limits: Limits, start: int, day: int)
    requires CallsForward(calls, start)
    ensures var (g, log) := CallRun(Fresh(start), calls, limits);
            && Budgeted(g, log, limits, day)
            && g.utcDay <= EpochDay(if calls == [] then start else calls[|calls| - 1].recordAt.roll)
  {
    hide Budgeted;
    hide EpochDay;
    hide CallStep;
    if calls == [] {
      FreshBudgeted(limits, start, day);
    } else {
      var n := |calls| - 1;
      var c := calls[n];
      BudgetOverrunByLastOnly(calls[..n], limits, start, day);
      var (g, log) := CallRun(Fresh(start), calls[..n], limits);
      var seen := if n == 0 then start else calls[n - 1].recordAt.roll;
      EpochDayMonotone(seen, c.checkAt.roll);
      EpochDayMonotone(c.checkAt.roll, c.recordAt.roll);
      CallBudgeted(g, c, log, limits, day);
    }
  }

  lemma FreshBudgeted(limits: Limits, start: int, day: int)
    ensures Budgeted(Fresh(start), [], limits, day) && Fresh(start).utcDay == EpochDay(start)
  {
  }
}
