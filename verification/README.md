# Verification model of the MCPX payment marketplace

The marketplace lets agents call paid tools: a gateway meters and forwards calls, a facilitator settles them
against on-chain sessions, an indexer mirrors chain events, an oracle measures servers and slashes stakes, and a
script moves legacy users over. Each of these keeps its logic in small engines behind injected stores. This project
models those engines in Dafny and proves what they keep over every input, run and interleaving.

| files | engine |
|---|---|
| `SseFrames`, `Streaming`, `Metering` | event-stream printing and reading, the read loop, the meter and its settlement |
| `Decimal`, `Json`, `JsonCodec`, `X402`, `Canonical` | wire codecs, parsers of untrusted JSON, the signed message |
| `Sessions`, `GasStation`, `Settlement`, `SettleRuns`, `Preflight`, `Subsidy` | verification policy, schemes, debit, limiter, runs of settles, gateway checks, subsidy ledger |
| `Indexer`, `Replay`, `Abuse` | event source, dedup, dispatch, tick, crash and replay, outlier detection |
| `OrderStatistics`, `Quality`, `Sla`, `SlaRuns` | percentile, score, report, slash amount, breach streaks over passes |
| `WorkerPool`, `Migration`, `MigrationRuns` | bounded-concurrency map, one user's migration, whole runs under every schedule and any number of them |

Code that updates state in the source is a class or a method here, proved against a function of the old state;
what the source promises is proved about those functions and about runs of them. `dafny verify dfyconfig.toml`
covers the whole project.

Conventions. Floating point is exact (`real`); `Math.round` rounds half up. Clocks, the square root, JSON, the
signature check and the reading of a big integer from text are parameters. A throw is an `Err`, a `None` or a
`false` result. `hide` statements only keep definitions out of a proof that does not need them.

Where code and comments differ the model follows the code: `StreamMeter.record` is documented to return false when the
ceiling is reached, but returns false only when it is exceeded; the outlier detector is documented to flag what exceeds
mean + 3 stddev, but also flags what equals it; the gas limiter is documented to enforce a daily budget, but every settle
reports zero gas to it, so a positive budget never refuses one.

Properties that hold only under a condition, with the condition and a failing input:

- A signed message commits to its details exactly when the server id holds no `|` and the tool name none before its last
  character (`CanonicalCommitsIff`, `TwoQuotesOneMessage`).
- One signature is not one debit: the facilitator keeps no record of the signatures it took (`ResubmitSettlesIff`,
  `OneSignatureTwoDebits`).
- Re-running the migration grants at most once, plus once per lost answer, exactly when the store written is the store
  read, which the JSON source with its no-op store is not (`RerunBoundIffDurable`), and per listing of the user
  (`CleanRunGrants`, `ListedTwiceGrantedTwice`). An infinite balance makes a whole run reject (`RunRejectsIff`,
  `InfiniteBalanceThrows`).
- A promised wait is not negative exactly when it is computed before the oldest kept timestamp leaves the window
  (`RunRetryExact`, `WaitCanBeNegative`).
- A window whose one scan threw stays unscanned (`UnscannedIff`, `ThrownScanStays`).
- A mirrored balance drifts by what was cut between the two writes of its handler, since the event counts as seen and is
  not handled again (`RunConserves`, `TornDrifts`).
- The breach streak tracks the run of breaches, and slashes fall due as documented, exactly while no write failed that
  would have started or reset it (`StreakTracksRun`, `SlashRuleIff`, `LostResetSlashes`). A landed slash whose streak was
  not written is not reported (`ReportsLanded`, `LandedUnreported`).
- A zero charge skips the gateway's money checks (`FreeCallMatchesChain`, `FreeCallOverCap`), preflight and chain differ
  on the millisecond of expiry (`PreflightMatchesChain`, `ExpiryMillisecond`), and a chunk price survives the stream
  exactly when it is not negative (`PriceSurvives`, `NegativePriceLost`).

## Model

| member | source | states |
|---|---|---|
| `SseFrames.FramesPartition` | apps/gateway/src/stream.ts:93-97 | splitting a text at leftmost blank lines loses nothing: the frames, rejoined, followed by the unfinished rest are the text, and the rest holds no separator |
| `SseFrames.FramesClean` | apps/gateway/src/stream.ts:95-97 | every frame cut off is one whose terminating blank line was the leftmost one |
| `SseFrames.FramesGrow` | apps/gateway/src/stream.ts:92-97 | reading more text only adds frames behind those already found |
| `SseFrames.FramesOfUnsplit` | apps/gateway/src/stream.ts:93-97 | frames written with a blank line behind each are split back into exactly those frames |
| `SseFrames.ParseSseFrame` | apps/gateway/src/stream.ts:120-132 | the line loop yields the last `event:` name, trimmed, and the `data:` payloads joined by LF, absent when there are none |
| `SseFrames.OneMoreLine` | apps/gateway/src/stream.ts:123-127 | what one more line does to any frame, with or without a trailing CR: `event:` names the event anew, `data:` adds its payload behind a LF less one leading space, any other line changes nothing |
| `SseFrames.TrimMeans` | apps/gateway/src/stream.ts:125 | trimming takes white space off both ends, all of it and nothing else |
| `SseFrames.PrintedFrameReadsBack` | apps/gateway/src/stream.ts:120-132 | a frame printed with a plain event name and one line of data parses to that name and that data |
| `Streaming.StreamUpstream` | apps/gateway/src/stream.ts:37-118 | the buffered read loop yields the chunks and the outcome (done, error frame, truncated, read fault, connection or http error) of splitting the whole text at once: fragmentation does not matter |
| `Streaming.FirstFrame` | apps/gateway/src/stream.ts:95-108 | for every stream, the frame it starts with, as bytes: `done` ends it, `error` ends it with its data, a `chunk` with data is delivered, and any other event or an empty chunk is passed over |
| `Streaming.DecodedMeans` | apps/gateway/src/stream.ts:134-154 | what a chunk is decoded to, by what its data parses to: an object gives its text field or its own JSON, an all-digits price and a structured meta; data that is no JSON is the text itself; any other value is printed |
| `Streaming.StopsAtFirst` | apps/gateway/src/stream.ts:82-91 | only what was read before the first turn that is no data counts, and only a fault there ends the stream with an error |
| `Streaming.NoStream` | apps/gateway/src/stream.ts:63-76 | an unreachable tool and a bad status are errors without a chunk; an aborted connect and a missing body end quietly |
| `Streaming.EmitSse` | packages/sdk-server/src/server.ts:184-206 | the emitter writes one frame per yielded chunk, then a done frame, or an error frame when the handler throws |
| `Streaming.EmittedBytes` | packages/sdk-server/src/server.ts:71-77 | the bytes of an emitted stream: each chunk under the field names `text`, `priceAtomic` and `meta`, absent fields not sent, and the frame it closes with |
| `Streaming.PriceSurvives` | packages/sdk-server/src/server.ts:71-77 | the gateway reads back a printed price override exactly when it is not negative |
| `Streaming.ChunkSurvives` | apps/gateway/src/stream.ts:134-154 | decoding what the SDK prints for a chunk gives back its text, its metadata and its non-negative price |
| `Streaming.NegativePriceLost` | apps/gateway/src/stream.ts:134-154 | a chunk yielded with price -1 arrives without a price |
| `Streaming.StreamRoundTrip` | packages/sdk-server/src/server.ts:186-202 | printing any chunks, ending normally or by a throw, and decoding them under any fragmentation gives back those texts, prices and metadata in order, with the matching outcome |
| `Streaming.TruncationYieldsPrefix` | apps/gateway/src/stream.ts:82-110 | a connection cut short yields a prefix of the chunks of the whole stream, and the done outcome only if nothing was lost |
| `JsonCodec.SoundCodecExists` | packages/sdk-server/src/server.ts:71-77 | a printer of all JSON values with an inverse, on one line and never empty, exists: what the round trips ask of the JSON library can be met |
| `Metering.StreamMeter.Record` | apps/gateway/src/stream.ts:170-181 | after every recorded chunk the meter is min(ceiling, sum of chunk costs); the result says whether the true cost is still within the ceiling |
| `Metering.MeterStream` | apps/gateway/src/handler.ts:417-488 | the handler forwards a prefix with the clamped meter reading of each chunk, stops exactly at the first overrun or abort, charges min(ceiling, cost of what was forwarded), and settles nothing exactly when an upstream error came before any chunk |
| `Metering.EarlyStopCharges` | apps/gateway/src/handler.ts:439-448 | without an abort, stopping at the ceiling charges what reading to the end would have charged |
| `Metering.StreamedCall` | apps/gateway/src/handler.ts:428-458 | opening the stream and metering it, composed: the contract of the handler over whatever the connection does |
| `Metering.UnstreamedCall` | apps/gateway/src/handler.ts:449-459 | an unreachable tool or a bad status is neither charged nor settled; no body, or a client gone before the answer, settles a call for nothing |
| `Metering.NoSettlementIff` | apps/gateway/src/handler.ts:449-459 | nothing is settled exactly when the stream failed before its first chunk, and while the client stays a success is settled exactly when the stream ended normally, was cut, or cost more than its ceiling |
| `Metering.ListPriceMetered` | apps/gateway/src/handler.ts:376-444 | without price overrides: the buyer signs for perChunk x maxChunks, exactly min(available, maxChunks + 1, chunks until the client left) are forwarded, and at most maxChunks of them are charged |
| `Metering.FinalizedStreamSettles` | apps/gateway/src/handler.ts:417-488 | whatever stream the handler finalized: its `upto` settle is never refused by the scheme, goes through exactly when verification and limiter let it and the chain is up, and then takes what was metered and reports the rest of the signed ceiling as unused |
| `Metering.StreamedCallCost` | apps/gateway/src/stream.ts:80-110 | from emitter to meter: the metered cost is the cost the tool asked for under any fragmentation, and never more on a connection cut short |
| `Decimal.ValueOfPrint` | packages/x402/src/wire.ts:39-43 | reading a printed natural gives it back |
| `Decimal.PrintOfValue` | packages/x402/src/wire.ts:30-37 | printing the value of an accepted decimal string gives the string back |
| `Decimal.PrintDigits` | packages/x402/src/wire.ts:39-43 | numbers are printed in the digits 0 to 9, the most significant first |
| `X402.DecimalCodecBijective` | packages/x402/src/wire.ts:30-43 | `n` prints as `s` exactly when `s` parses as `n`, over all integers and all strings, refusals included |
| `X402.SettleResultToWire` | packages/x402/src/wire.ts:67-105 | the field-by-field encoding succeeds exactly when no amount is negative, prints each amount under its own name, and decoding it gives the result back |
| `X402.PayloadWireRoundTrip` | packages/x402/src/wire.ts:47-63 | `payloadToWire` succeeds exactly on a non-negative amount, and `payloadFromWire` undoes it |
| `X402.WireFields` | packages/x402/src/wire.ts:47-63 | on the wire only the amount changes, to its decimal text; every other field is carried over as it is |
| `X402.WirePayloadRoundTrip` | packages/x402/src/wire.ts:47-63 | `payloadFromWire` succeeds exactly on a canonical amount, and `payloadToWire` prints the record back |
| `X402.ParsePrintedPayload` | packages/x402/src/wire.ts:136-203 | the parser accepts the JSON of a record exactly when the record is well formed, and returns it unchanged |
| `X402.ParsedIsWellFormed` | packages/x402/src/wire.ts:136-203 | whatever JSON it is given, the parser returns only well-formed records that it would accept again |
| `X402.ParsesIff` | packages/x402/src/wire.ts:136-203 | over all JSON values and records: the parser returns a record exactly when the value spells it out field by field, under the documented names, and it is well formed |
| `Canonical.CanonicalText` | apps/facilitator/src/verify.ts:150-161 | the signed text: version, scheme, network, server, tool, amount, token and expiry, in that order, separated by `&#124;` |
| `Canonical.CanonicalCommits` | apps/facilitator/src/verify.ts:134-161 | for details without `&#124;` in a free-form field, any details with the same signed message pass `sameDetails`, and conversely |
| `Canonical.RivalCollides` | apps/facilitator/src/verify.ts:150-161 | an accepted record with a separator in the server id, or in the tool name before its last character, shares message and token with another record the parser accepts |
| `Canonical.TwoQuotesOneMessage` | apps/facilitator/src/verify.ts:150-161 | two quotes the parser accepts, server `0x1&#124;2` with tool `t` and server `0x1` with tool `2&#124;t`, sign one message and fail `sameDetails` |
| `Canonical.CanonicalCommitsIff` | apps/facilitator/src/verify.ts:134-161 | among the records the parser accepts, for one token type: the signed message determines the details exactly when the server id holds no `&#124;` and the tool name none before its last character |
| `GasStations.GasStation.constructor` | apps/facilitator/src/gas-station.ts:33-37 | a new limiter has no recorded request, nothing spent, and the current UTC day |
| `GasStations.GasStation.TrimRateWindow` | apps/facilitator/src/gas-station.ts:72-79 | the shift loop drops the leading timestamps older than 60 s and nothing else |
| `GasStations.TrimKeepsWindow` | apps/facilitator/src/gas-station.ts:72-79 | on ordered timestamps, trimming keeps exactly those inside the window |
| `GasStations.GasStation.RollDailyWindow` | apps/facilitator/src/gas-station.ts:81-87 | a new UTC day resets the spend, the same day keeps it |
| `Common.EpochDayMeans` | apps/facilitator/src/gas-station.ts:82 | the day number changes every 24 hours, at UTC midnight |
| `GasStations.GasStation.CheckNow` | apps/facilitator/src/gas-station.ts:40-52 | the check rolls the day, trims the window and computes the wait, each at its own clock reading, and records nothing |
| `GasStations.GasStation.Record` | apps/facilitator/src/gas-station.ts:55-60 | recording rolls, trims and adds one timestamp, each at its own clock reading, and any positive gas |
| `GasStations.CheckIff` | apps/facilitator/src/gas-station.ts:40-52 | on ordered timestamps a call is rate limited exactly when the last 60 s hold the rate already, and told to wait until the oldest of them leaves it, and otherwise refused exactly when its UTC day has spent the budget |
| `GasStations.RecordAdds` | apps/facilitator/src/gas-station.ts:55-60 | recording leaves the timestamps of the window and the new one, and adds a positive gas cost to its day |
| `GasStations.RetryAfterExact` | apps/facilitator/src/gas-station.ts:43-47 | on a clock that never runs back, also within a call: `retryAfterMs` is at most 60000 and exact from its own reading, a later check with nothing recorded in between being limited exactly while it trims within that wait; it is not negative exactly when that reading is no later than the oldest kept timestamp + 60000 |
| `GasStations.WaitCanBeNegative` | apps/facilitator/src/gas-station.ts:43-47 | a failing input for 0 as a lower bound: the clock ticks between trimming and computing the wait, and `retryAfterMs` is -1 |
| `GasStations.BudgetOverrunByLastOnly` | apps/facilitator/src/gas-station.ts:40-60 | over every sequence of check-then-record calls with any gas costs: before its last call a UTC day had spent less than the daily budget, and the limiter shows exactly what was spent that day |
| `Settlement.InMemorySuiBackend.SubmitSettle` | apps/facilitator/src/sui/in-memory-backend.ts:78-121 | the submit debits the session, rolls the day over, numbers and logs the result, or throws and leaves the sessions alone |
| `Settlement.SettlePayment` | apps/facilitator/src/settle.ts:30-116 | verify, limiter check, scheme, submit and record in that order, with the refusal code of the step that failed |
| `Sessions.VerifyGuards` | apps/facilitator/src/verify.ts:38-127 | verification gives the reason of the first guard that fails, in the order network, echoed details, token, expiry, pause, signature, session; anything unparsable is malformed |
| `Sessions.SessionGuards` | apps/facilitator/src/verify.ts:72-127 | the checks on the session in their order, with a day spend that starts over on a new day |
| `Sessions.LowerIgnoresCase` | apps/facilitator/src/verify.ts:80 | owner and payer are compared up to the case of ASCII letters |
| `Settlement.SubmitsWhatWasSigned` | apps/facilitator/src/schemes/scheme.ts:43-90 | a settle that goes through made exactly one submission: payer, session, server, tool and ceiling of the signed payload, the input's receipt and success with their defaults, and the intent with its metadata category |
| `Settlement.SettledSession` | apps/facilitator/src/sui/in-memory-backend.ts:97-120 | the debited session field by field: the balance falls by the settled amount, which is added to the day's spend or starts a new day's; the result carries the next serial |
| `Settlement.RefusedWhy` | apps/facilitator/src/settle.ts:36-116 | each refusal code is given exactly under its own condition, a request settles exactly under the remaining one, and what was refused before the submit is not submitted |
| `Settlement.StepEffect` | apps/facilitator/src/verify.ts:72-127 | a settle changes only the payer's session, by an amount within the signed ceiling, the balance and both caps; a refused settle changes no session |
| `Settlement.SettledWasAuthorized` | apps/facilitator/src/verify.ts:38-85 | what settles was signed over the canonical message, by a payer who owns the debited session, for this network and token, on an unpaused platform before the quote ran out |
| `Settlement.StepGas` | apps/facilitator/src/settle.ts:45-82 | a slot is recorded exactly for a settle that went through, after its check allowed it |
| `Settlement.UptoSettledPlusUnused` | apps/facilitator/src/sui/in-memory-backend.ts:85-118 | an `upto` result reports the signed ceiling, and settled + unused is that ceiling; an `exact` one settles the signed amount |
| `SettleRuns.RunIsSafe` | apps/facilitator/src/settle.ts:30-116 | over every run with a clock that never runs back: balance = initial - settled, no overdraft, every settle within the per-call cap, every day's total within the per-day cap |
| `SettleRuns.RunKeepsLedger` | apps/facilitator/src/sui/in-memory-backend.ts:97-107 | the invariant behind it: the session's day record accounts for everything settled that day and what it carried before |
| `SettleRuns.DebitsWereSigned` | apps/facilitator/src/verify.ts:38-85 | over every run, all that was debited from a session is at most the sum of the ceilings of the authorized requests submitted on it, a request counting once per submission |
| `SettleRuns.ResubmitSettlesIff` | apps/facilitator/src/settle.ts:30-116 | after any run in between, a request that settled settles again, for the same amount, exactly while the platform is not paused, quote and session have not run out, balance and day cap still cover the signed amount, and the limiter allows it |
| `SettleRuns.OneSignatureTwoDebits` | apps/facilitator/src/settle.ts:30-116 | debits are not bounded by the amount signed once: one signature for 5 submitted twice takes 10 |
| `SettleRuns.RunKeepsRate` | apps/facilitator/src/gas-station.ts:40-60 | over every run from a fresh limiter, with separate clock readings within each call, every closed 60,000 ms interval contains at most ratePerMinute recorded settlements |
| `SettleRuns.RunRetryExact` | apps/facilitator/src/gas-station.ts:43-47 | after any run, a promised wait is at most 60,000 ms and exact from its own reading, and not negative exactly when computed before the oldest kept timestamp left the window |
| `SettleRuns.BudgetRefusesIffNotPositive` | apps/facilitator/src/settle.ts:82 | every settle records zero gas, so after any run the daily budget refuses a settle exactly when it is not positive and the rate allows the settle |
| `Preflights.PreflightGuards` | apps/gateway/src/preflight.ts:29-85 | preflight gives the error of the first guard that fails, in their order, and a zero charge skips the money guards |
| `Preflights.PreflightMatchesChain` | apps/gateway/src/preflight.ts:29-85 | for a non-zero charge on a faithful mirror, preflight accepts exactly when the facilitator's session checks pass, the server is active, a unary charge is within the list price, and the session does not expire this millisecond |
| `Preflights.FreeCallMatchesChain` | apps/gateway/src/preflight.ts:54 | a zero charge accepted by preflight passes the facilitator's checks exactly when the balance is not negative and today's spend is within the day cap |
| `Preflights.ExpiryMillisecond` | apps/gateway/src/preflight.ts:32-38 | in the millisecond a session expires the gateway refuses a call the chain would take |
| `Preflights.FreeCallOverCap` | apps/gateway/src/preflight.ts:54 | a free call on a session over its day cap passes the gateway and not the chain |
| `Subsidies.SubsidyLedger.RequestGrant` | apps/facilitator/src/subsidy.ts:47-75 | a request is approved and reserved, or refused without effect, with the remaining budget reported |
| `Subsidies.SubsidyConserved` | apps/facilitator/src/subsidy.ts:47-75 | over every request sequence: money spent = per-user grant x granted addresses, no month over budget, no address approved twice |
| `Subsidies.DecisionMeans` | apps/facilitator/src/subsidy.ts:47-75 | every decision of every run from the decisions before it: an address approved before is told so, another is approved exactly when one more grant fits its month, and each is told what is left of the month |
| `Subsidies.MonthFillsUp` | apps/facilitator/src/subsidy.ts:60-69 | over distinct addresses a month approves exactly min(requests, floor(budget / grant)): the grant that uses it up is still given |
| `Indexer.KeyInjective` | apps/indexer/src/storage/in-memory.ts:131-136 | distinct events have distinct dedup keys |
| `Indexer.InMemoryStorage.RecordEvent` | apps/indexer/src/storage/in-memory.ts:131-136 | records the key and says whether it was there |
| `Indexer.InMemoryStorage.HandleInsuranceCollected` | apps/indexer/src/handlers/insurance.ts:4-16 | two deltas raise the insurance balance and lifetime together |
| `Indexer.InMemoryStorage.HandleInsurancePaid` | apps/indexer/src/handlers/insurance.ts:18-30 | two deltas move a payout from the balance to what was paid |
| `Indexer.InMemoryStorage.HandleTreasuryCollected` | apps/indexer/src/handlers/treasury.ts:4-15 | two deltas raise the treasury balance and lifetime together |
| `Indexer.InMemoryStorage.HandleTreasuryWithdrawn` | apps/indexer/src/handlers/treasury.ts:17-23 | one delta lowers the treasury balance |
| `Indexer.Dispatch` | apps/indexer/src/handlers/dispatch.ts:86-107 | dedup first: a seen event changes nothing; a new one is recorded, handled and, when live, published; a throw leaves it recorded |
| `Indexer.TextAmountsMove` | apps/indexer/src/handlers/parse.ts:6-17 | an unseen platform event whose amount is decimal text, as chain events carry it, completes and moves exactly its own fields by that amount |
| `Indexer.NumberAmountsMove` | apps/indexer/src/handlers/parse.ts:6-17 | the same for an amount that is a whole JSON number |
| `Indexer.UnreadableAmountThrows` | apps/indexer/src/handlers/parse.ts:6-17 | a platform event without a readable amount throws, leaves the mirror alone and is recorded as seen all the same |
| `Indexer.OtherEventsHandled` | apps/indexer/src/handlers/dispatch.ts:52-84 | any other event is left to its own handler and never touches the platform balances |
| `Indexer.PublishedIff` | apps/indexer/src/handlers/dispatch.ts:44-50 | an event is published, with its own payload, exactly when it is new, of one of the five live types, was handled to its end and the publish goes through |
| `Indexer.InMemoryEventSource.FetchPage` | apps/indexer/src/event-source/in-memory.ts:26-45 | the page is the slice behind the first event the cursor names, or from the start when there is none, with next cursor and more-flag |
| `Indexer.PageMeans` | apps/indexer/src/event-source/in-memory.ts:26-45 | which page that is, position by position, for a cursor that names an event, names none, or is absent |
| `Indexer.Tick` | apps/indexer/src/runner.ts:40-78 | a tick dispatches its page in order, publishes in that order and moves the checkpoint, or halts behind the first dispatch that throws with the checkpoint unmoved |
| `Indexer.CheckpointMoves` | apps/indexer/src/runner.ts:69-76 | the checkpoint moves to the checkpoint, sequence number and digest of the page's last event exactly when a non-empty page went through |
| `Replay.TickIsStep` | apps/indexer/src/runner.ts:40-78 | whatever a tick does to the store is a step of the runs quantified over below |
| `Replay.RunConsistent` | apps/indexer/src/runner.ts:40-78 | over every run, crashes anywhere and throwing handlers included: seen is the key set of a log prefix and the mirror is the fold of the handlers over exactly that prefix, each event once and in log order, one hit by a crash as far as its handler got |
| `Replay.ReplayIsFold` | apps/indexer/src/handlers/dispatch.ts:86-97 | with no crash between recording and handling, the mirror is the left fold of the handlers over exactly the seen prefix |
| `Replay.TickEndFits` | apps/indexer/src/runner.ts:52-67 | every way a tick can end, thrown or completed, is one of the ticks quantified over below |
| `Replay.TicksDrain` | apps/indexer/src/runner.ts:40-78 | whatever throws: at most as many ticks throw as there are events still to record, and that many ticks plus enough pages drain the log |
| `Replay.RangePublishes` | apps/indexer/src/handlers/dispatch.ts:97-106 | the payloads a tick publishes are those of the log positions counted below |
| `Replay.RunPublishesOnce` | apps/indexer/src/handlers/dispatch.ts:86-106 | over every run, crashes and failing publishes included, each event is published at most once, and in log order |
| `Replay.RunPublishesExactly` | apps/indexer/src/handlers/dispatch.ts:86-106 | and nothing is missed: over every run, crashes included, exactly the recorded events of a live type whose handler ran to its end are published, as long as their publish does not fail |
| `Replay.FoldAccounts` | apps/indexer/src/storage/in-memory.ts:262-264 | whatever events were handled, and however far each handler got: every balance is the sum of the event amounts whose write to it happened, an amount being what the rows on text and number amounts say |
| `Replay.RunLoop` | apps/indexer/src/runner.ts:107-126 | the loop of arrivals and ticks, thrown ticks left behind: with unique keys the mirror is the fold over a prefix of what arrived, and what was published are exactly the live events of that prefix that were handled and whose publish goes through, in log order and each once |
| `Replay.RunConserves` | apps/indexer/src/handlers/insurance.ts:4-30 | at every point of every run: insurance balance = lifetime - paid and treasury balance = lifetime - withdrawn, up to exactly the amounts whose handler a crash cut between its two writes |
| `Replay.TornDrifts` | apps/indexer/src/handlers/insurance.ts:4-16 | a failing input: a collected 5 whose handler died behind its first write leaves 5 in the balance and 0 in the lifetime |
| `Abuse.GetAccountAggregates` | apps/indexer/src/storage/in-memory.ts:316-333 | one entry per account with a call in the window, with that account's calls and spend there; in all they hold every call and all the money of the window |
| `Abuse.StatsMean` | apps/indexer/src/abuse.ts:38-45 | the mean times n is the sum, the squared spread times n - 1 is the sum of squared deviations, and fewer than two values have no spread |
| `Abuse.DetectAbuse` | apps/indexer/src/abuse.ts:56-101 | for distinct accounts: a flag on a metric for an address is returned exactly when that account's value lies sigma deviations or more above the mean of a spread population; it names the account, the window and the score, and occurs once; nothing for fewer than two accounts |
| `Abuse.RunAbuseScan` | apps/indexer/src/abuse.ts:110-143 | the scan composed: the aggregates of the six hours before the boundary, at three sigma, flagged as above |
| `Abuse.WindowsPartition` | apps/indexer/src/abuse.ts:133-143 | every row lies in exactly one closed window |
| `Abuse.FlagBound` | apps/indexer/src/abuse.ts:38-45 | k of n values can stand sigma or more sample deviations above their mean only if (n-1)(n-k) >= sigma^2 k n |
| `Abuse.ThreeSigmaFlags` | apps/indexer/src/abuse.ts:56-101 | at three sigma and per metric: nobody among 10 or fewer accounts, at most (n-1)/9 accounts, and k(10n-1) <= n(n-1) |
| `Abuse.TwoLevelFlagged` | apps/indexer/src/abuse.ts:73-99 | the bound is attained: k accounts at one high level are flagged exactly when (n-1)(n-k) >= sigma^2 k n |
| `Abuse.FlagsInvariant` | apps/indexer/src/abuse.ts:56-101 | shifting one metric of all accounts, or scaling it by a positive factor, flags the same accounts on the same metrics in the same order |
| `Abuse.MaybeRunAbuseScan` | apps/indexer/src/runner.ts:87-105 | a window that closed after the last one taken is attempted, and counts as taken whether or not its scan throws |
| `Abuse.ScanLoop` | apps/indexer/src/runner.ts:107-126 | over any turns of the loop, throwing ticks and scans and any clock included: windows are attempted in rising order, each by a poll behind it; on a clock that never runs back the first poll that could scan a window attempts it |
| `Abuse.UnscannedIff` | apps/indexer/src/runner.ts:87-126 | on such a clock a window some poll could scan is closed, aligned and attempted exactly once, and is left unscanned for good exactly when the scan of the first such poll threw |
| `Abuse.ThrownScanStays` | apps/indexer/src/runner.ts:95-104 | one poll whose scan throws: its window is attempted and never scanned |
| `Abuse.UnpolledNeverAttempted` | apps/indexer/src/runner.ts:93-94 | a window no poll could scan is never attempted |
| `OrderStatistics.SortCounts` | apps/quality-oracle/src/oracle.ts:70 | sorting keeps how many values lie at or below, and below, any bound |
| `OrderStatistics.P95Characterised` | apps/quality-oracle/src/oracle.ts:68-74 | the percentile is one of the values, at least 95 in a hundred values are at most it and fewer than that lie below it; it is 0 when there is none |
| `OrderStatistics.RankUnique` | apps/quality-oracle/src/oracle.ts:68-74 | those two counts determine it |
| `OrderStatistics.P95Monotone` | apps/quality-oracle/src/oracle.ts:68-74 | raising values never lowers the percentile |
| `Quality.ComputeServerQuality` | apps/quality-oracle/src/oracle.ts:80-114 | the loop's counters are the successes, the finite latencies and the total; nothing is reported without samples |
| `Quality.MetricsMean` | apps/quality-oracle/src/oracle.ts:91-113 | the score is 8000 x uptime plus one point per millisecond the percentile stays under 2000 ms, rounded once; uptime and error rate add up to 10000, or to 10001 exactly when both are halves; the percentile is reported to the nearest millisecond |
| `Quality.ScoreMonotone` | apps/quality-oracle/src/oracle.ts:80-114 | turning errors into successes or lowering latencies never lowers the score, which stays in 0..10000 |
| `Quality.ComputeAllServerQuality` | apps/quality-oracle/src/oracle.ts:121-134 | one entry per server that occurs, measured on its own samples, ids strictly increasing |
| `Quality.EntryMeans` | apps/quality-oracle/src/oracle.ts:80-134 | a server's entry from the samples of all servers: sample count, success rate, percentile of its timed calls and score, each by counting |
| `Quality.ReportOrderIndependent` | apps/quality-oracle/src/oracle.ts:121-134 | any permutation of the samples gives the identical report |
| `Quality.ReportCountsEverySample` | apps/quality-oracle/src/oracle.ts:121-134 | the sample counts add up to the number of samples |
| `Sla.SlashInRange` | apps/quality-oracle/src/sla.ts:115-128 | a slash lies in 0..remaining |
| `Sla.DeadServerLosesAll` | apps/quality-oracle/src/sla.ts:115-128 | at 0% measured uptime the whole remaining stake is slashed |
| `Sla.SlashMonotone` | apps/quality-oracle/src/sla.ts:77-128 | worse uptime never slashes less, nor does a larger remaining stake |
| `Sla.SlashNearFormula` | apps/quality-oracle/src/sla.ts:24-31 | the fixed-point amount is within 1 + remaining/(2*10^6) of remaining x (committed - actual)/committed |
| `SlaRuns.SlashOne` | apps/quality-oracle/src/oracle.ts:360-430 | one stake's turn: which slash is attempted, what streak is persisted and what is reported, through failed transactions, missing attestations and failed streak writes |
| `SlaRuns.RunSlaSlashing` | apps/quality-oracle/src/oracle.ts:340-442 | a pass folds the stakes in order over the streak store, attempts exactly the slashes due, and reports breaches, slashes, their sum, the skips and the failing stakes |
| `SlaRuns.ObservationMeans` | apps/quality-oracle/src/oracle.ts:350-366 | what a pass sees of a stake: the call count and success rate of its own server, and that server's attestation |
| `SlaRuns.StreakMeans` | apps/quality-oracle/src/oracle.ts:368-424 | the streak one turn leaves: no calls keep it, a compliant window resets it, a breach adds one, and a failed write or a failed slash transaction leaves it; no other stake's streak changes |
| `SlaRuns.SubmitsSlash` | apps/quality-oracle/src/oracle.ts:385-421 | a slash is submitted exactly when it is due and attested, with the stake, its server, the attestation and the amount |
| `SlaRuns.EveryDueSlashAccounted` | apps/quality-oracle/src/oracle.ts:386-430 | every slash that is due is attempted or counted as skipped, every skip and every failed turn is named once, and breaches are the windows below their commitment |
| `SlaRuns.FailureMeans` | apps/quality-oracle/src/oracle.ts:395-429 | a stake is named among the failures for a due slash without attestation, a slash transaction that failed, or a streak write that failed, and for nothing else |
| `SlaRuns.ReportsLanded` | apps/quality-oracle/src/oracle.ts:415-429 | in number and in sum, what landed is what a pass reports plus the landed slashes whose streak write failed behind them |
| `SlaRuns.LandedUnreported` | apps/quality-oracle/src/oracle.ts:415-429 | such a slash: it landed and nothing is reported |
| `SlaRuns.StreakTracksRun` | apps/quality-oracle/src/sla.ts:143-161 | over every history, whatever slashes fail and attestations are missing: all along the persisted streak is 0 iff the run of breaches among windows with a signal is 0 and never exceeds it, exactly when no write failed that would have started or reset the streak |
| `SlaRuns.SlashIffTwoBreaches` | apps/quality-oracle/src/oracle.ts:368-421 | while no write failed that would have started or reset the streak, a slash is attempted exactly when this window breaches, the run of breaches is at least 2, the amount is positive and an attestation exists |
| `SlaRuns.SlashRuleIff` | apps/quality-oracle/src/oracle.ts:368-421 | and conversely: that rule holds at every point of a history, for whatever is observed next, exactly when no such write failed |
| `SlaRuns.LostResetSlashes` | apps/quality-oracle/src/oracle.ts:374-383 | a failing input: a compliant window whose streak write failed lets the next single breach be slashed |
| `SlaRuns.PassesCompose` | apps/quality-oracle/src/oracle.ts:360-430 | a history of passes is one sequence of observations: streaks and attempts compose |
| `SlaRuns.ListActiveStakes` | apps/quality-oracle/src/store.ts:106-132 | for distinct stakes: a row is listed exactly when what was posted exceeds what landed on it, once, with its own server, its committed uptime and that difference |
| `SlaRuns.PassesNeverOverdraw` | apps/quality-oracle/src/store.ts:118-131 | over any number of passes on the stakes the store lists, what was slashed from a stake is at most what was posted |
| `SlaRuns.SlashesNeverOverdraw` | apps/quality-oracle/src/sla.ts:115-128 | the same for any sequence of observations that saw their stake net of prior slashes |
| `WorkerPool.EveryInterleaving` | scripts/migrate-web2-users.ts:124-142 | under every interleaving: at most max(1, min(limit, n)) calls in flight, no index called twice, at most 2n + workers steps, and a slot holds only what its own call returned |
| `WorkerPool.CompletedRun` | scripts/migrate-web2-users.ts:131-141 | when every worker finished, fn was called exactly once per index, in order, and every slot holds its call's result |
| `WorkerPool.NoDeadlock` | scripts/migrate-web2-users.ts:133-139 | until all workers stopped, some worker can take a step |
| `WorkerPool.StepsRunOut` | scripts/migrate-web2-users.ts:133-139 | every step lowers a natural number, so every interleaving ends |
| `Migration.MigrateUser` | scripts/migrate-web2-users.ts:160-207 | one user's turn: its result, and its writes up to the point where it breaks, a write whose answer was lost included |
| `Migration.ResultMeans` | scripts/migrate-web2-users.ts:160-207 | each status is reported exactly under its own condition, and a user whose turn is taken is reported with 10^6 times their floored credits |
| `Migration.CreditsConvertIff` | scripts/migrate-web2-users.ts:57-63 | a balance converts exactly when it is finite and not negative, to 10^6 times its floor |
| `Migration.TurnRow` | scripts/migrate-web2-users.ts:184-206 | the row a turn leaves, field by field, for every fault: a turn that grants raises what was granted by exactly 10^6 times the floored credits |
| `MigrationRuns.RunMigration` | scripts/migrate-web2-users.ts:148-233 | the run with its pool under any schedule: rows as the schedule leaves them, and, when every worker finished, each user's result in order and their totals; nothing is returned while a worker has not finished, as when a turn threw |
| `Migration.RunInOrder` | scripts/migrate-web2-users.ts:148-233 | the run at concurrency 1: the users have their turns in order up to the first that throws, with its writes, results and totals |
| `Migration.TotalsAddUp` | scripts/migrate-web2-users.ts:210-221 | the status counts partition the users and the total granted is 10^6 times the floored credits of the migrated ones |
| `Migration.TotalsCountUsers` | scripts/migrate-web2-users.ts:210-221 | each reported count is the number of users it is about |
| `Migration.RunRejectsIff` | scripts/migrate-web2-users.ts:57-63 | a turn throws out of the run exactly for a user still to be migrated with an address and an infinite balance |
| `Migration.InfiniteBalanceThrows` | scripts/migrate-web2-users.ts:57-63 | such a user: an infinite balance and an address |
| `MigrationRuns.ScheduleIsTurn` | scripts/migrate-web2-users.ts:148-208 | for users with distinct ids listed from the store, under every schedule of the pool, finished, rejected or cut short by a crash: a listed user's row is what one turn of theirs makes of it |
| `MigrationRuns.StrangersUntouched` | scripts/migrate-web2-users.ts:157-208 | and no other row changes |
| `MigrationRuns.SchedulesReach` | scripts/migrate-web2-users.ts:124-142 | the pool states of these schedules are those of the pool's interleavings, and a call that returned did all its writes |
| `MigrationRuns.PoolLikeOneWorker` | scripts/migrate-web2-users.ts:148-233 | a finished run with any number of workers leaves every row, and reports every result, as one worker taking the users in order does |
| `MigrationRuns.GrantedIsReported` | scripts/migrate-web2-users.ts:174-220 | a finished run under any schedule, over distinct ids: what the chain granted its users in all is 10^6 times the floored credits of those whose grant was written, and, when nothing failed, the total the run reports |
| `MigrationRuns.SomethingPossible` | scripts/migrate-web2-users.ts:133-139 | until all workers stopped, the pool can step or a call can write |
| `MigrationRuns.FinishesIff` | scripts/migrate-web2-users.ts:131-174 | when all workers stopped, the run finished, rather than lost a worker to a throw, exactly when it lists no user still due with an infinite balance |
| `MigrationRuns.RunsAreTurns` | scripts/migrate-web2-users.ts:148-208 | any number of runs under any schedules, crashed ones included, are to a user one turn per run that listed them |
| `MigrationRuns.RunsGrantBounded` | scripts/migrate-web2-users.ts:184-206 | over any number of such runs on a durable store: grants = completed turns + turns whose grant landed unrecorded, at most one turn completes, so grants <= 1 + lost answers |
| `MigrationRuns.RunsSkipMigrated` | scripts/migrate-web2-users.ts:161-164 | a user the store shows as migrated is granted nothing by any later runs |
| `MigrationRuns.GrantsPerListing` | scripts/migrate-web2-users.ts:155-189 | distinct ids or not, under every schedule: a run grants a user once per listing whose grant was written |
| `MigrationRuns.CleanRunGrants` | scripts/migrate-web2-users.ts:155-208 | a finished run in which nothing failed grants a user exactly once per eligible listing |
| `MigrationRuns.ListedTwiceGrantedTwice` | scripts/migrate-web2-users.ts:155-189 | so an eligible user listed twice in one run is granted twice, on any store |
| `Migration.VolatileGrants` | scripts/migrate-web2-users.ts:260-264 | over any turns on a store that keeps nothing, every turn that can grant does |
| `Migration.RerunBoundIffDurable` | scripts/migrate-web2-users.ts:260-264 | over all turn lists, grants <= 1 + lost answers holds exactly when the next run reads what this one wrote |

## Left out

- Settlement.SettlePayment: is atomic; interleaved settle calls are not modelled, and the in-memory backend does not re-check the balance at submit.
- Sessions.Lower: folds ASCII letters only.
- Decimal.PrintNumber: writes a fraction in exponent form (`15e-1`), where JavaScript writes `1.5`; only that distinct numbers print differently and hold no `|` is used.
- Abuse.DetectAbuse: works on exact reals, so rounding of large spends to a double is not modelled.
- OrderStatistics.P95: takes ceil(0.95n) and all scores exactly rather than in floating point.
- Quality.Less: orders ids by code point, JavaScript by UTF-16 unit.
- Quality.ComputeAllServerQuality: visits the groups in any order, where the source visits them in the order their servers first occur.
- Indexer.PartlyApplied: what a crash leaves of a handler that does not touch the platform balances is arbitrary.
- Indexer.Apply: leaves the handlers of the event types that never touch the platform balances arbitrary, so vault owners and per-session attribution are not modelled.
- SlaRuns.RunSlaSlashing: names a failure by its stake and omits the error texts and the reason text of a slash; reading a streak is assumed to succeed.
- Subsidies.Request: carries its UTC month instead of computing it from a timestamp.
- The gateway signs a JSON text and the facilitator checks the `|`-joined one; no agreement between them is claimed.
- The gateway's retry of a settle, the free tier, the result cache, archiving and intents.
- The Sui event source, Supabase, Redis and Walrus adapters, HTTP routing, TextDecoder and fetch timeouts.
- Web apps, docs, CLI, widget, starter template, example servers and the Move contracts.
