/** Metering a stream against the ceiling its buyer signed, and settling the metered amount. */
module Metering {
  import opened Common
  import opened Json
  import opened SseFrames
  import opened Streaming
  import opened X402
  import opened Sessions
  import opened GasStations
  import opened Settlement

  function CostOf(c: UpstreamChunk, perChunk: nat): nat {
    if c.priceAtomic.Some? then c.priceAtomic.value else perChunk
  }

  function TotalCost(chunks: seq<UpstreamChunk>, perChunk: nat): nat {
    if chunks == [] then 0
    else TotalCost(chunks[..|chunks| - 1], perChunk) + CostOf(chunks[|chunks| - 1], perChunk)
  }

  lemma {:induction false} TotalCostConcat(a: seq<UpstreamChunk>, b: seq<UpstreamChunk>, perChunk: nat)
    ensures TotalCost(a + b, perChunk) == TotalCost(a, perChunk) + TotalCost(b, perChunk)
  {
    if b == [] {
      assert a + b == a;
    } else {
      assert (a + b)[..|a + b| - 1] == a + b[..|b| - 1];
      TotalCostConcat(a, b[..|b| - 1], perChunk);
    }
  }

  lemma TotalCostMonotone(some: seq<UpstreamChunk>, all: seq<UpstreamChunk>, perChunk: nat)
    requires some <= all
    ensures TotalCost(some, perChunk) <= TotalCost(all, perChunk)
  {
    TotalCostConcat(some, all[|some|..], perChunk);
    assert all == some + all[|some|..];
  }

  class StreamMeter {
    const quotedMaxAtomic: nat
    const perChunkAtomic: nat
    var total: int
    var count: nat
    ghost var recorded: seq<UpstreamChunk>

    /** The meter shows the true cost of everything recorded, clamped to the ceiling. */
    ghost predicate Valid()
      reads this
    {
      total == Min(quotedMaxAtomic, TotalCost(recorded, perChunkAtomic)) && count == |recorded|
    }

    constructor (quotedMaxAtomic: nat, perChunkAtomic: nat)
      ensures Valid() && recorded == []
      ensures this.quotedMaxAtomic == quotedMaxAtomic && this.perChunkAtomic == perChunkAtomic
    {
      this.quotedMaxAtomic, this.perChunkAtomic := quotedMaxAtomic, perChunkAtomic;
      total, count, recorded := 0, 0, [];
    }

    /**
     * False from the chunk that takes the true cost past the ceiling; a stream that lands on it exactly goes on.
     * Past the ceiling only a free chunk is still reported as within it.
     */
    method Record(chunk: UpstreamChunk) returns (within: bool)
      requires Valid()
      modifies this
      ensures Valid() && recorded == old(recorded) + [chunk]
      ensures within <==>
        || TotalCost(recorded, perChunkAtomic) <= quotedMaxAtomic
        || (old(TotalCost(recorded, perChunkAtomic)) > quotedMaxAtomic && CostOf(chunk, perChunkAtomic) == 0)
    {
      recorded := recorded + [chunk];
      assert recorded[..|recorded| - 1] == old(recorded);
      var cost := CostOf(chunk, perChunkAtomic);
      if total + cost > quotedMaxAtomic {
        total := quotedMaxAtomic;
        count := count + 1;
        return false;
      }
      total := total + cost;
      count := count + 1;
      return true;
    }
  }

  predicate IsError(o: Outcome) { !o.Done? && !o.Truncated? }

  /** What the handler does when the stream is over. */
  datatype Finalization =
    | NoSettlement(error: Outcome)
    | Finalize(forwarded: seq<(UpstreamChunk, int)>, actualAtomic: int, ceilingAtomic: nat, success: bool)

  /** The client is gone once it was sent this many chunks. */
  predicate Gone(abortAfter: Option<nat>, sent: nat) { abortAfter.Some? && sent >= abortAfter.value }

  /** The chunk loop stops behind its first `m` chunks. */
  predicate StopsAt(chunks: seq<UpstreamChunk>, perChunk: nat, ceiling: nat, abortAfter: Option<nat>, m: nat)
    requires m <= |chunks|
  {
    m > 0 && (TotalCost(chunks[..m], perChunk) > ceiling || Gone(abortAfter, m))
  }

  /** The most a stream may cost: what its buyer is asked to sign. */
  function Ceiling(perChunk: nat, maxChunks: nat): nat { perChunk * maxChunks }

  function Reading(chunks: seq<UpstreamChunk>, perChunk: nat, ceiling: nat, m: nat): int
    requires m <= |chunks|
  {
    Min(ceiling, TotalCost(chunks[..m], perChunk))
  }

  /** A prefix of the stream was forwarded, each chunk with the meter reading it was sent with; nothing stopped earlier. */
  ghost predicate Forwards(
    chunks: seq<UpstreamChunk>, perChunk: nat, ceiling: nat, abortAfter: Option<nat>, forwarded: seq<(UpstreamChunk, int)>)
  {
    && |forwarded| <= |chunks|
    && (forall i | 0 <= i < |forwarded| :: forwarded[i] == (chunks[i], Reading(chunks, perChunk, ceiling, i + 1)))
    && (forall i | 0 <= i < |forwarded| :: !StopsAt(chunks, perChunk, ceiling, abortAfter, i))
  }

  lemma ForwardOne(
    chunks: seq<UpstreamChunk>, perChunk: nat, ceiling: nat, abortAfter: Option<nat>,
    forwarded: seq<(UpstreamChunk, int)>, reading: int)
    requires Forwards(chunks, perChunk, ceiling, abortAfter, forwarded) && |forwarded| < |chunks|
    requires !StopsAt(chunks, perChunk, ceiling, abortAfter, |forwarded|)
    requires reading == Reading(chunks, perChunk, ceiling, |forwarded| + 1)
    ensures Forwards(chunks, perChunk, ceiling, abortAfter, forwarded + [(chunks[|forwarded|], reading)])
  {
  }

  lemma NothingForwarded(chunks: seq<UpstreamChunk>, perChunk: nat, ceiling: nat, abortAfter: Option<nat>)
    ensures Forwards(chunks, perChunk, ceiling, abortAfter, []) && chunks[..0] == [] && TotalCost([], perChunk) == 0
  {
  }

  /** Without an abort, stopping early charges as much as reading to the end would have. */
  lemma EarlyStopCharges(chunks: seq<UpstreamChunk>, perChunk: nat, ceiling: nat, m: nat)
    requires m <= |chunks| && (m < |chunks| ==> StopsAt(chunks, perChunk, ceiling, None, m))
    ensures Reading(chunks, perChunk, ceiling, m) == Min(ceiling, TotalCost(chunks, perChunk))
  {
    assert chunks[..|chunks|] == chunks;
    TotalCostMonotone(chunks[..m], chunks, perChunk);
  }

  /** What the handler's loop and its aftermath promise about a decoded stream. */
  ghost predicate Metered(d: Decoded, perChunk: nat, maxChunks: nat, abortAfter: Option<nat>, f: Finalization) {
    match f
    case NoSettlement(error) => d.chunks == [] && IsError(d.outcome) && error == d.outcome
    case Finalize(forwarded, actual, ceiling, success) =>
      var m := |forwarded|;
      && !(d.chunks == [] && IsError(d.outcome))
      && ceiling == Ceiling(perChunk, maxChunks)
      && Forwards(d.chunks, perChunk, ceiling, abortAfter, forwarded)
      // it went on as long as it had to
      && (m < |d.chunks| ==> StopsAt(d.chunks, perChunk, ceiling, abortAfter, m))
      // it charges what was forwarded, up to the ceiling
      && actual == Reading(d.chunks, perChunk, ceiling, m)
      && (abortAfter.None? ==> actual == Min(ceiling, TotalCost(d.chunks, perChunk)))
      // an upstream error it never got to see does not count as one
      && (success <==> !IsError(d.outcome) || StopsAt(d.chunks, perChunk, ceiling, abortAfter, m))
  }

  /** Meter and forward chunk by chunk until the stream ends, the ceiling is passed, or the client is gone. */
  method MeterStream(d: Decoded, perChunk: nat, maxChunks: nat, abortAfter: Option<nat>) returns (f: Finalization)
    ensures Metered(d, perChunk, maxChunks, abortAfter, f)
  {
    hide TotalCost, Forwards, Ceiling;
    NothingForwarded(d.chunks, perChunk, Ceiling(perChunk, maxChunks), abortAfter);
    var ceiling := Ceiling(perChunk, maxChunks);
    var meter := new StreamMeter(ceiling, perChunk);
    var forwarded: seq<(UpstreamChunk, int)> := [];
    var stopped := false;
    while |forwarded| < |d.chunks|
      invariant |forwarded| <= |d.chunks|
      invariant meter.Valid() && meter.quotedMaxAtomic == ceiling && meter.perChunkAtomic == perChunk
      invariant meter.recorded == d.chunks[..|forwarded|]
      invariant Forwards(d.chunks, perChunk, ceiling, abortAfter, forwarded)
      invariant stopped <==> StopsAt(d.chunks, perChunk, ceiling, abortAfter, |forwarded|)
      invariant fresh(meter) && !stopped
      decreases |d.chunks| - |forwarded|
    {
      var i := |forwarded|;
      assert d.chunks[..i + 1] == d.chunks[..i] + [d.chunks[i]];
      var within := meter.Record(d.chunks[i]);
      ForwardOne(d.chunks, perChunk, ceiling, abortAfter, forwarded, meter.total);
      forwarded := forwarded + [(d.chunks[i], meter.total)];
      if !within || Gone(abortAfter, i + 1) {
        stopped := true;
        break;
      }
    }
    if |forwarded| == 0 && IsError(d.outcome) {
      return NoSettlement(d.outcome);
    }
    if abortAfter.None? {
      EarlyStopCharges(d.chunks, perChunk, ceiling, |forwarded|);
    }
    f := Finalize(forwarded, meter.total, ceiling, stopped || !IsError(d.outcome));
  }

  /** Opening the tool's stream and metering what comes out of it. */
  method StreamedCall(codec: Codec, conn: Connection, perChunk: nat, maxChunks: nat, abortAfter: Option<nat>)
    returns (f: Finalization)
    ensures Metered(WholeStream(codec, conn), perChunk, maxChunks, abortAfter, f)
  {
    var d := StreamUpstream(codec, conn);
    f := MeterStream(d, perChunk, maxChunks, abortAfter);
  }

  /**
   * A tool that cannot be reached or answers with a bad status is neither charged nor settled; without a body, or when
   * the client was gone before there was an answer, a call for nothing is settled.
   */
  lemma UnstreamedCall(codec: Codec, conn: Connection, perChunk: nat, maxChunks: nat, abortAfter: Option<nat>, f: Finalization)
    requires Metered(WholeStream(codec, conn), perChunk, maxChunks, abortAfter, f)
    ensures conn.Unreachable? ==> f == NoSettlement(ConnectionError(conn.msg))
    ensures conn.BadStatus? ==> f == NoSettlement(HttpError(conn.status))
    ensures conn.NoBody? || conn.AbortedConnect? ==> f == Finalize([], 0, perChunk * maxChunks, true)
  {
  }

  /**
   * Nothing is settled exactly when the stream failed before its first chunk. A client that stays settles a success
   * exactly when its stream did not fail, or would have cost more than its ceiling and so was left before it failed.
   */
  lemma NoSettlementIff(d: Decoded, perChunk: nat, maxChunks: nat, abortAfter: Option<nat>, f: Finalization)
    requires Metered(d, perChunk, maxChunks, abortAfter, f)
    ensures f.NoSettlement? <==>
      d.chunks == [] && (d.outcome.ErrorFrame? || d.outcome.ReadFault? || d.outcome.ConnectionError? || d.outcome.HttpError?)
    ensures f.Finalize? && (d.outcome.Done? || d.outcome.Truncated?) ==> f.success
    ensures f.Finalize? && abortAfter.None? ==>
      (f.success <==> d.outcome.Done? || d.outcome.Truncated? || TotalCost(d.chunks, perChunk) > perChunk * maxChunks)
  {
    hide TotalCost;
    NothingForwarded(d.chunks, perChunk, Ceiling(perChunk, maxChunks), abortAfter);
    if f.Finalize? {
      TotalCostMonotone(d.chunks[..|f.forwarded|], d.chunks, perChunk);
      assert |f.forwarded| == |d.chunks| ==> d.chunks[..|f.forwarded|] == d.chunks;
    }
  }

  lemma {:induction false} ListPriced(chunks: seq<UpstreamChunk>, perChunk: nat)
    requires forall c | c in chunks :: c.priceAtomic == None
    ensures TotalCost(chunks, perChunk) == perChunk * |chunks|
  {
    if chunks != [] {
      var n := |chunks| - 1;
      ListPriced(chunks[..n], perChunk);
      assert chunks[n] in chunks;
      assert perChunk * (n + 1) == perChunk * n + perChunk;
    }
  }

  lemma TimesOrdered(p: nat, a: nat, b: nat)
    requires p > 0
    ensures p * a > p * b <==> a > b
  {
    if a > b {
      assert p * (a - b) > 0;
    } else {
      assert p * (b - a) >= 0;
    }
  }

  lemma ListPriceStops(chunks: seq<UpstreamChunk>, perChunk: nat, maxChunks: nat, abortAfter: Option<nat>, m: nat)
    requires perChunk > 0 && m <= |chunks| && forall c | c in chunks :: c.priceAtomic == None
    ensures StopsAt(chunks, perChunk, perChunk * maxChunks, abortAfter, m) <==>
      m > maxChunks || (m > 0 && abortAfter.Some? && m >= abortAfter.value)
    ensures Reading(chunks, perChunk, perChunk * maxChunks, m) == perChunk * Min(m, maxChunks)
  {
    hide TotalCost;
    ListPriced(chunks[..m], perChunk);
    TimesOrdered(perChunk, m, maxChunks);
  }

  /** How many chunks a call at the list price is sent: a client that leaves before the first is noticed behind it. */
  function Sent(available: nat, maxChunks: nat, abortAfter: Option<nat>): int {
    Min(available, Min(maxChunks + 1, if abortAfter.Some? then Max(abortAfter.value, 1) else available))
  }

  /**
   * At the list price the buyer signs for `maxChunks` chunks: that many are forwarded and charged,
   * the one that would go past them is still forwarded but free, and none follows it or the client's leaving.
   */
  lemma ListPriceMetered(d: Decoded, perChunk: nat, maxChunks: nat, abortAfter: Option<nat>, f: Finalization)
    requires Metered(d, perChunk, maxChunks, abortAfter, f) && f.Finalize?
    requires perChunk > 0 && forall c | c in d.chunks :: c.priceAtomic == None
    ensures f.ceilingAtomic == perChunk * maxChunks
    ensures |f.forwarded| == Sent(|d.chunks|, maxChunks, abortAfter)
    ensures f.actualAtomic == perChunk * Min(|f.forwarded|, maxChunks)
  {
    hide StopsAt, Reading, TotalCost;
    var m, n := |f.forwarded|, Sent(|d.chunks|, maxChunks, abortAfter);
    ListPriceStops(d.chunks, perChunk, maxChunks, abortAfter, m);
    if m > n {
      ListPriceStops(d.chunks, perChunk, maxChunks, abortAfter, n);
    }
  }

  // ----- from the meter to the chain -----

  /** The `upto` scheme refuses exactly the actual amounts outside 0..ceiling. */
  lemma UptoRefusesIff(p: PaymentPayloadWire, input: SettleInput)
    requires p.details.scheme == Upto
    ensures BuildParams(p, input).Ok? <==>
      input.uptoActual.None? || 0 <= input.uptoActual.value <= AmountOf(p.details)
    ensures BuildParams(p, input).Ok? ==>
      && BuildParams(p, input).value.amountAtomic == AmountOf(p.details)
      && BuildParams(p, input).value.uptoActualAtomic
         == Some(if input.uptoActual.Some? then input.uptoActual.value else 0)
  {
    hide AmountOf;
    hide IntentCategory;
  }

  /** The settle of a finalized stream: an `upto` payload signed for its ceiling, with the metered amount as the actual. */
  predicate Settles(f: Finalization, input: SettleInput) {
    && f.Finalize? && ParsePayload(input.payload).Ok?
    && ParsePayload(input.payload).value.details.scheme == Upto
    && SignedAmount(input) == f.ceilingAtomic && input.uptoActual == Some(f.actualAtomic)
  }

  /** A submit of an `upto` debit within its ceiling on a stored session goes through unless a fault is injected. */
  lemma UptoSubmit(b: BackendState, p: SubmitParams, cfg: Config)
    requires p.sessionObjectId in b.sessions
    requires p.uptoActualAtomic.Some? && 0 <= p.uptoActualAtomic.value <= p.amountAtomic
    ensures var (_, r) := Submit(b, p, cfg);
            && (r.Ok? <==> cfg.failSubmitWith.None?)
            && (r.Ok? ==>
              && r.value.settledAmountAtomic == p.uptoActualAtomic.value
              && r.value.quotedMaxAtomic == Some(p.amountAtomic)
              && r.value.unusedAtomic == Some(p.amountAtomic - p.uptoActualAtomic.value))
  {
    hide Debited;
    hide EpochDay;
  }

  lemma ReadingInRange(chunks: seq<UpstreamChunk>, perChunk: nat, ceiling: nat, m: nat)
    requires m <= |chunks|
    ensures 0 <= Reading(chunks, perChunk, ceiling, m) <= ceiling
  {
    hide TotalCost;
  }

  /**
   * From the meter to the chain: whatever stream the handler finalized, the scheme never refuses the metered amount.
   * Its settle goes through exactly when verification and limiter let it and the chain is up, and then it takes what
   * was metered and leaves the rest of the signed ceiling.
   */
  lemma FinalizedStreamSettles(
    d: Decoded, perChunk: nat, maxChunks: nat, abortAfter: Option<nat>, f: Finalization,
    b: BackendState, g: GasState, input: SettleInput, cfg: Config, limits: Limits, checkAt: Readings, recordAt: Readings)
    requires Metered(d, perChunk, maxChunks, abortAfter, f) && Settles(f, input)
    ensures BuildParams(ParsePayload(input.payload).value, input).Ok?
    ensures var (b1, _, r) := SettleStep(b, g, input, cfg, limits, checkAt, recordAt);
            && (r.Settled? <==>
              VerifyPayment(input, b, cfg).None? && CheckOf(g, limits, checkAt).Allowed? && cfg.failSubmitWith.None?)
            && (r.Settled? ==>
              && r.result.settledAmountAtomic == f.actualAtomic
              && r.result.quotedMaxAtomic == Some(f.ceilingAtomic)
              && r.result.unusedAtomic == Some(f.ceilingAtomic - f.actualAtomic))
  {
    hide VerifyPayment;
    hide ParsePayload;
    hide BuildParams;
    hide Submit;
    hide CheckOf;
    hide Refreshed;
    hide Recorded;
    hide AmountOf;
    hide StopsAt;
    hide Reading;
    hide WithinLimits;
    var p := ParsePayload(input.payload).value;
    ReadingInRange(d.chunks, perChunk, f.ceilingAtomic, |f.forwarded|);
    UptoRefusesIff(p, input);
    if VerifyPayment(input, b, cfg).None? {
      VerifiedSession(input, b, cfg);
      BuiltParams(p, input);
      UptoSubmit(b, BuildParams(p, input).value, cfg);
    }
  }

  /** What a tool's chunks cost: a missing or negative price falls back to the list price. */
  function ListedCost(chunks: seq<ToolChunk>, perChunk: nat): nat {
    if chunks == [] then 0 else
    (if chunks[0].priceAtomic.Some? && chunks[0].priceAtomic.value >= 0 then chunks[0].priceAtomic.value else perChunk)
      + ListedCost(chunks[1..], perChunk)
  }

  lemma {:induction false} DeliveredCost(chunks: seq<ToolChunk>, perChunk: nat)
    ensures TotalCost(DeliveredAll(chunks), perChunk) == ListedCost(chunks, perChunk)
  {
    if chunks != [] {
      DeliveredCost(chunks[1..], perChunk);
      TotalCostConcat([Delivered(chunks[0])], DeliveredAll(chunks[1..]), perChunk);
      assert [Delivered(chunks[0])][..0] == [];
      assert TotalCost([Delivered(chunks[0])], perChunk) == CostOf(Delivered(chunks[0]), perChunk);
    }
  }

  /**
   * End to end: however the network cuts the emitted stream into reads, the gateway's meter sees
   * exactly the cost the tool asked for, and on a connection cut short never more than that.
   */
  lemma StreamedCallCost(codec: Codec, chunks: seq<ToolChunk>, failure: Option<string>, conn: Connection, perChunk: nat)
    requires Sound(codec) && conn.Body?
    requires Text(conn.turns) <= Unsplit(EmittedFrames(codec, chunks, failure))
    ensures TotalCost(WholeStream(codec, conn).chunks, perChunk) <= ListedCost(chunks, perChunk)
    ensures Text(conn.turns) == Unsplit(EmittedFrames(codec, chunks, failure)) ==>
      TotalCost(WholeStream(codec, conn).chunks, perChunk) == ListedCost(chunks, perChunk)
  {
    var whole := [Data(Unsplit(EmittedFrames(codec, chunks, failure)))];
    assert whole[1..] == [] && Text(whole) == Unsplit(EmittedFrames(codec, chunks, failure));
    StreamRoundTrip(codec, chunks, failure, Body(whole));
    TruncationYieldsPrefix(codec, conn.turns, whole);
    TotalCostMonotone(WholeStream(codec, conn).chunks, DeliveredAll(chunks), perChunk);
    DeliveredCost(chunks, perChunk);
    if Text(conn.turns) == Text(whole) {
      StreamRoundTrip(codec, chunks, failure, conn);
    }
  }
}
