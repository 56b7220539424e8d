/** The indexer: event source, mirror storage, dispatch with dedup, and one tick of the runner. */
module Indexer {
  import opened Common
  import opened Decimal
  import opened Json

  datatype EventType =
    | ServerPublished | ServerUpdated | ServerDeactivated | ToolAdded | ToolRemoved
    | SessionCreated | SessionDeposit | SessionWithdraw | SessionLimitsUpdated | SessionClosed
    | CallSettled | RefundIssued | UptoFinalized
    | VaultCreated | VaultAccrued | VaultClaimed
    | TreasuryCollected | TreasuryWithdrawn | InsuranceCollected | InsurancePaid
    | ConfigUpdated | ConfigPaused | QualityAttested
    | IntentCreated | IntentRevoked | IntentUsed | StakePosted | StakeSlashed
    | BundleCreated | BundleActivated | ReviewPosted

  datatype IndexedEvent = IndexedEvent(
    txDigest: string, eventSeq: nat, checkpoint: int, timestampMs: int,
    eventType: EventType, parsedJson: map<string, Json>)

  datatype Cursor = Cursor(txDigest: string, eventSeq: nat)

  datatype Checkpoint = Checkpoint(lastCheckpoint: int, lastEventSeq: nat, lastTxDigest: Option<string>)

  const START: Checkpoint := Checkpoint(0, 0, None)

  /** The dedup key `tx|seq`. */
  function KeyOf(txDigest: string, eventSeq: nat): string { txDigest + "|" + Print(eventSeq) }

  function EventKey(e: IndexedEvent): string { KeyOf(e.txDigest, e.eventSeq) }

  /** Distinct events have distinct dedup keys, whatever the digests contain. */
  lemma KeyInjective(t1: string, s1: nat, t2: string, s2: nat)
    requires KeyOf(t1, s1) == KeyOf(t2, s2)
    ensures t1 == t2 && s1 == s2
  {
    assert forall i | 0 <= i < |Print(s1)| :: IsDigit(Print(s1)[i]);
    assert forall i | 0 <= i < |Print(s2)| :: IsDigit(Print(s2)[i]);
    LastBarUnique(t1, t2, Print(s1), Print(s2));
    PrintInjective(s1, s2);
  }

  // ----- the mirror and its handlers -----

  datatype Platform = Platform(
    treasuryBalance: int, insuranceBalance: int, treasuryLifetime: int, insuranceLifetime: int, insurancePaid: int)

  const EMPTY_PLATFORM := Platform(0, 0, 0, 0, 0)

  datatype PlatformField = TreasuryBalance | InsuranceBalance | TreasuryLifetime | InsuranceLifetime | InsurancePaidOut

  function WithDelta(p: Platform, field: PlatformField, amount: int): Platform {
    match field
    case TreasuryBalance => p.(treasuryBalance := p.treasuryBalance + amount)
    case InsuranceBalance => p.(insuranceBalance := p.insuranceBalance + amount)
    case TreasuryLifetime => p.(treasuryLifetime := p.treasuryLifetime + amount)
    case InsuranceLifetime => p.(insuranceLifetime := p.insuranceLifetime + amount)
    case InsurancePaidOut => p.(insurancePaid := p.insurancePaid + amount)
  }

  /** The platform balances, and everything else the mirror holds. */
  datatype Mirror<R> = Mirror(platform: Platform, rest: R)

  /** A handler ran to its end, or threw after leaving some writes behind. */
  datatype Effect<M> = Completed(m: M) | Threw(m: M)

  /**
   * The handlers the replay argument leaves arbitrary: those of the event types that never touch
   * the platform balances, what such a handler leaves behind when the process dies after some of its writes,
   * and the reading of a big integer from text (None where it throws).
   */
  datatype Handlers<!R> = Handlers(
    bigintOf: string -> Option<int>, other: (IndexedEvent, R) -> Effect<R>, partway: (IndexedEvent, R, nat) -> R)

  function AsBigint(j: Option<Json>, bigintOf: string -> Option<int>): Option<int> {
    match j
    case Some(JNumber(n)) => if n.scale == 0 then Some(n.mantissa) else None
    case Some(JString(s)) => if s == "" then None else bigintOf(s)
    case _ => None
  }

  function EventAmount<R>(h: Handlers<R>, e: IndexedEvent): Option<int> {
    AsBigint(Field(e.parsedJson, "amount_atomic"), h.bigintOf)
  }

  predicate IsPlatformEvent(t: EventType) {
    t.InsuranceCollected? || t.InsurancePaid? || t.TreasuryCollected? || t.TreasuryWithdrawn?
  }

  /** The net effect of a platform event. */
  function PlatformAfter(p: Platform, t: EventType, amount: int): Platform {
    match t
    case InsuranceCollected =>
      p.(insuranceBalance := p.insuranceBalance + amount, insuranceLifetime := p.insuranceLifetime + amount)
    case InsurancePaid =>
      p.(insuranceBalance := p.insuranceBalance - amount, insurancePaid := p.insurancePaid + amount)
    case TreasuryCollected =>
      p.(treasuryBalance := p.treasuryBalance + amount, treasuryLifetime := p.treasuryLifetime + amount)
    case TreasuryWithdrawn => p.(treasuryBalance := p.treasuryBalance - amount)
    case _ => p
  }

  /** The writes of a platform event's handler, in order. */
  function DeltasOf(t: EventType, amount: int): seq<(PlatformField, int)> {
    match t
    case InsuranceCollected => [(InsuranceBalance, amount), (InsuranceLifetime, amount)]
    case InsurancePaid => [(InsuranceBalance, -amount), (InsurancePaidOut, amount)]
    case TreasuryCollected => [(TreasuryBalance, amount), (TreasuryLifetime, amount)]
    case TreasuryWithdrawn => [(TreasuryBalance, -amount)]
    case _ => []
  }

  function WithDeltas(p: Platform, ds: seq<(PlatformField, int)>): Platform {
    if ds == [] then p else WithDelta(WithDeltas(p, ds[..|ds| - 1]), ds[|ds| - 1].0, ds[|ds| - 1].1)
  }

  /** Write by write, the list leads to the net effect. */
  lemma DeltasOneByOne(p: Platform, t: EventType, amount: int)
    ensures var ds := DeltasOf(t, amount);
            && |ds| <= 2
            && (|ds| >= 1 ==> WithDeltas(p, ds[..1]) == WithDelta(p, ds[0].0, ds[0].1))
            && (|ds| == 2 ==> WithDeltas(p, ds[..2]) == WithDelta(WithDelta(p, ds[0].0, ds[0].1), ds[1].0, ds[1].1))
            && WithDeltas(p, ds) == PlatformAfter(p, t, amount)
  {
    var ds := DeltasOf(t, amount);
    if |ds| >= 1 {
      assert ds[..1][..0] == [];
    }
    if |ds| == 2 {
      assert ds[..2][..1] == ds[..1];
    }
  }

  /** What a process that dies behind the first `writes` writes of a handler leaves of its work. */
  function PartlyApplied<R>(h: Handlers<R>, m: Mirror<R>, e: IndexedEvent, writes: nat): Mirror<R> {
    if writes == 0 then m
    else if IsPlatformEvent(e.eventType) then
      match EventAmount(h, e)
      case None => m
      case Some(a) =>
        var ds := DeltasOf(e.eventType, a);
        m.(platform := WithDeltas(m.platform, ds[..Min(writes, |ds|)]))
    else m.(rest := h.partway(e, m.rest, writes))
  }

  /** What the dispatch table's handler for this event does to the mirror. */
  function Apply<R>(h: Handlers<R>, m: Mirror<R>, e: IndexedEvent): Effect<Mirror<R>> {
    if IsPlatformEvent(e.eventType) then
      match EventAmount(h, e)
      case None => Threw(m)
      case Some(a) => Completed(m.(platform := PlatformAfter(m.platform, e.eventType, a)))
    else
      match h.other(e, m.rest)
      case Completed(r) => Completed(m.(rest := r))
      case Threw(r) => Threw(m.(rest := r))
  }

  predicate IsLive(t: EventType) {
    t.CallSettled? || t.ServerPublished? || t.VaultClaimed? || t.InsurancePaid? || t.BundleActivated?
  }

  // ----- storage, dispatch -----

  datatype Store<R> = Store(seen: set<string>, mirror: Mirror<R>, checkpoint: Checkpoint)

  /** Record first, then handle: the mirror changes only for an event that was not seen. */
  function Dispatched<R>(s: Store<R>, h: Handlers<R>, e: IndexedEvent): Store<R> {
    if EventKey(e) in s.seen then s
    else Store(s.seen + {EventKey(e)}, Apply(h, s.mirror, e).m, s.checkpoint)
  }

  datatype PubsubPayload = PubsubPayload(
    eventType: EventType, txDigest: string, timestampMs: int, data: map<string, Json>)

  function PayloadOf(e: IndexedEvent): PubsubPayload {
    PubsubPayload(e.eventType, e.txDigest, e.timestampMs, e.parsedJson)
  }

  /** Whether dispatching throws; publishing fails for the events in `down`. */
  predicate DispatchThrows<R>(s: Store<R>, h: Handlers<R>, e: IndexedEvent, down: set<string>) {
    EventKey(e) !in s.seen
    && (Apply(h, s.mirror, e).Threw? || (IsLive(e.eventType) && EventKey(e) in down))
  }

  /** What dispatching publishes. */
  function Published<R>(s: Store<R>, h: Handlers<R>, e: IndexedEvent, down: set<string>): seq<PubsubPayload> {
    if EventKey(e) !in s.seen && IsLive(e.eventType) && !DispatchThrows(s, h, e, down) then [PayloadOf(e)] else []
  }

  // ----- what one dispatch does, from outside -----

  /**
   * The events that move the platform balances, as chain events carry their amounts: in decimal text. An unseen one is
   * recorded, handled to its end, and moves exactly its own fields by its amount.
   */
  lemma TextAmountsMove<R>(s: Store<R>, h: Handlers<R>, e: IndexedEvent, n: nat)
    requires EventKey(e) !in s.seen
    requires "amount_atomic" in e.parsedJson && e.parsedJson["amount_atomic"] == JString(Print(n))
    requires h.bigintOf(Print(n)) == Some(n)
    ensures var p, q := s.mirror.platform, Dispatched(s, h, e).mirror.platform;
            && (e.eventType == InsuranceCollected ==>
              q == p.(insuranceBalance := p.insuranceBalance + n, insuranceLifetime := p.insuranceLifetime + n))
            && (e.eventType == InsurancePaid ==>
              q == p.(insuranceBalance := p.insuranceBalance - n, insurancePaid := p.insurancePaid + n))
            && (e.eventType == TreasuryCollected ==>
              q == p.(treasuryBalance := p.treasuryBalance + n, treasuryLifetime := p.treasuryLifetime + n))
            && (e.eventType == TreasuryWithdrawn ==> q == p.(treasuryBalance := p.treasuryBalance - n))
    ensures e.eventType in {InsuranceCollected, InsurancePaid, TreasuryCollected, TreasuryWithdrawn} ==>
      && !DispatchThrows(s, h, e, {})
      && Dispatched(s, h, e).seen == s.seen + {EventKey(e)}
      && Dispatched(s, h, e).mirror.rest == s.mirror.rest
  {
    hide EventKey;
    hide Print;
  }

  /** The same for an amount that arrives as a whole JSON number. */
  lemma NumberAmountsMove<R>(s: Store<R>, h: Handlers<R>, e: IndexedEvent, n: int)
    requires EventKey(e) !in s.seen
    requires "amount_atomic" in e.parsedJson && e.parsedJson["amount_atomic"] == JNumber(Fixed(n, 0))
    ensures var p, q := s.mirror.platform, Dispatched(s, h, e).mirror.platform;
            && (e.eventType == InsuranceCollected ==>
              q == p.(insuranceBalance := p.insuranceBalance + n, insuranceLifetime := p.insuranceLifetime + n))
            && (e.eventType == InsurancePaid ==>
              q == p.(insuranceBalance := p.insuranceBalance - n, insurancePaid := p.insurancePaid + n))
            && (e.eventType == TreasuryCollected ==>
              q == p.(treasuryBalance := p.treasuryBalance + n, treasuryLifetime := p.treasuryLifetime + n))
            && (e.eventType == TreasuryWithdrawn ==> q == p.(treasuryBalance := p.treasuryBalance - n))
  {
    hide EventKey;
  }

  /** A platform event without a readable amount throws and leaves the mirror alone; it counts as seen all the same. */
  lemma UnreadableAmountThrows<R>(s: Store<R>, h: Handlers<R>, e: IndexedEvent, down: set<string>)
    requires EventKey(e) !in s.seen
    requires e.eventType in {InsuranceCollected, InsurancePaid, TreasuryCollected, TreasuryWithdrawn}
    requires
      || "amount_atomic" !in e.parsedJson
      || match e.parsedJson["amount_atomic"]
         case JString(t) => t == "" || h.bigintOf(t) == None
         case JNumber(x) => x.scale > 0
         case _ => true
    ensures DispatchThrows(s, h, e, down) && Dispatched(s, h, e) == s.(seen := s.seen + {EventKey(e)})
  {
    hide EventKey;
  }

  /** Every other event is left to its own handler, which never touches the platform balances. */
  lemma OtherEventsHandled<R>(s: Store<R>, h: Handlers<R>, e: IndexedEvent)
    requires EventKey(e) !in s.seen
    requires e.eventType !in {InsuranceCollected, InsurancePaid, TreasuryCollected, TreasuryWithdrawn}
    ensures Dispatched(s, h, e) == Store(s.seen + {EventKey(e)}, Mirror(s.mirror.platform, h.other(e, s.mirror.rest).m), s.checkpoint)
    ensures DispatchThrows(s, h, e, {}) <==> h.other(e, s.mirror.rest).Threw?
  {
    hide EventKey;
  }

  /** An event is published exactly when it is unseen, of a live type, was handled to its end, and the publish goes through. */
  lemma PublishedIff<R>(s: Store<R>, h: Handlers<R>, e: IndexedEvent, down: set<string>)
    ensures var live := e.eventType in {CallSettled, ServerPublished, VaultClaimed, InsurancePaid, BundleActivated};
            var done := EventKey(e) !in s.seen && Apply(h, s.mirror, e).Completed?;
            && Published(s, h, e, down)
               == (if done && live && EventKey(e) !in down then
                     [PubsubPayload(e.eventType, e.txDigest, e.timestampMs, e.parsedJson)]
                   else [])
            && (DispatchThrows(s, h, e, down) <==>
                 EventKey(e) !in s.seen && (!done || (live && EventKey(e) in down)))
  {
    hide EventKey;
    hide Apply;
  }

  class Pubsub {
    const down: set<string>
    var published: seq<PubsubPayload>

    constructor (down: set<string>)
      ensures this.down == down && published == []
    {
      this.down, published := down, [];
    }

    /** False where publishing throws. */
    method Publish(e: IndexedEvent) returns (ok: bool)
      modifies this
      ensures ok <==> EventKey(e) !in down
      ensures published == if ok then old(published) + [PayloadOf(e)] else old(published)
    {
      ok := KeyOf(e.txDigest, e.eventSeq) !in down;
      if ok {
        published := published + [PubsubPayload(e.eventType, e.txDigest, e.timestampMs, e.parsedJson)];
      }
    }
  }

  class InMemoryStorage<R> {
    const handlers: Handlers<R>
    var seenEvents: set<string>
    var platform: Platform
    var rest: R
    var checkpoint: Checkpoint

    function State(): Store<R>
      reads this
    {
      Store(seenEvents, Mirror(platform, rest), checkpoint)
    }

    constructor (handlers: Handlers<R>, rest: R)
      ensures this.handlers == handlers && State() == Store({}, Mirror(EMPTY_PLATFORM, rest), START)
      ensures checkpoint == Checkpoint(0, 0, None) && platform == Platform(0, 0, 0, 0, 0)
    {
      this.handlers := handlers;
      this.rest := rest;
      seenEvents, platform, checkpoint := {}, EMPTY_PLATFORM, START;
    }

    method RecordEvent(txDigest: string, eventSeq: nat) returns (wasDuplicate: bool)
      modifies this`seenEvents
      ensures wasDuplicate <==> KeyOf(txDigest, eventSeq) in old(seenEvents)
      ensures seenEvents == old(seenEvents) + {KeyOf(txDigest, eventSeq)}
    {
      var key := KeyOf(txDigest, eventSeq);
      if key in seenEvents {
        return true;
      }
      seenEvents := seenEvents + {key};
      return false;
    }

    method ApplyPlatformDelta(field: PlatformField, amount: int)
      modifies this`platform
      ensures platform == WithDelta(old(platform), field, amount)
    {
      platform := WithDelta(platform, field, amount);
    }

    method UpdateCheckpoint(c: Checkpoint)
      modifies this`checkpoint
      ensures checkpoint == c
    {
      checkpoint := c;
    }

    method HandleInsuranceCollected(amount: int)
      modifies this`platform
      ensures platform == PlatformAfter(old(platform), InsuranceCollected, amount)
    {
      DeltasOneByOne(platform, InsuranceCollected, amount);
      ApplyPlatformDelta(InsuranceBalance, amount);
      assert platform == WithDeltas(old(platform), DeltasOf(InsuranceCollected, amount)[..1]);
      ApplyPlatformDelta(InsuranceLifetime, amount);
    }

    method HandleInsurancePaid(amount: int)
      modifies this`platform
      ensures platform == PlatformAfter(old(platform), InsurancePaid, amount)
    {
      DeltasOneByOne(platform, InsurancePaid, amount);
      ApplyPlatformDelta(InsuranceBalance, -amount);
      assert platform == WithDeltas(old(platform), DeltasOf(InsurancePaid, amount)[..1]);
      ApplyPlatformDelta(InsurancePaidOut, amount);
    }

    method HandleTreasuryCollected(amount: int)
      modifies this`platform
      ensures platform == PlatformAfter(old(platform), TreasuryCollected, amount)
    {
      DeltasOneByOne(platform, TreasuryCollected, amount);
      ApplyPlatformDelta(TreasuryBalance, amount);
      assert platform == WithDeltas(old(platform), DeltasOf(TreasuryCollected, amount)[..1]);
      ApplyPlatformDelta(TreasuryLifetime, amount);
    }

    method HandleTreasuryWithdrawn(amount: int)
      modifies this`platform
      ensures platform == PlatformAfter(old(platform), TreasuryWithdrawn, amount)
    {
      ApplyPlatformDelta(TreasuryBalance, -amount);
    }

    /** The dispatch table: false where the handler throws. */
    method Handle(e: IndexedEvent) returns (ok: bool)
      modifies this`platform, this`rest
      ensures Mirror(platform, rest) == Apply(handlers, old(State()).mirror, e).m
      ensures ok <==> Apply(handlers, old(State()).mirror, e).Completed?
    {
      if !IsPlatformEvent(e.eventType) {
        var effect := handlers.other(e, rest);
        rest := effect.m;
        return effect.Completed?;
      }
      var amount := EventAmount(handlers, e);
      if amount.None? {
        return false;
      }
      if e.eventType.InsuranceCollected? {
        HandleInsuranceCollected(amount.value);
      } else if e.eventType.InsurancePaid? {
        HandleInsurancePaid(amount.value);
      } else if e.eventType.TreasuryCollected? {
        HandleTreasuryCollected(amount.value);
      } else {
        HandleTreasuryWithdrawn(amount.value);
      }
      return true;
    }
  }

  /** False where dispatch throws. */
  method Dispatch<R>(e: IndexedEvent, storage: InMemoryStorage<R>, pubsub: Pubsub) returns (ok: bool)
    modifies storage, pubsub
    ensures storage.State() == Dispatched(old(storage.State()), storage.handlers, e)
    ensures ok <==> !DispatchThrows(old(storage.State()), storage.handlers, e, pubsub.down)
    ensures pubsub.published
         == old(pubsub.published) + Published(old(storage.State()), storage.handlers, e, pubsub.down)
  {
    var wasDuplicate := storage.RecordEvent(e.txDigest, e.eventSeq);
    if wasDuplicate {
      assert storage.seenEvents == old(storage.seenEvents);
      return true;
    }
    ok := storage.Handle(e);
    if ok && IsLive(e.eventType) {
      ok := pubsub.Publish(e);
    }
  }

  // ----- the event source -----

  predicate IsAt(e: IndexedEvent, c: Cursor) { e.txDigest == c.txDigest && e.eventSeq == c.eventSeq }

  function CursorAt(e: IndexedEvent): Cursor { Cursor(e.txDigest, e.eventSeq) }

  /** Where to resume: behind the first event the cursor names, or at the start when there is none. */
  function ResumeIndex(log: seq<IndexedEvent>, cursor: Option<Cursor>): (i: nat)
    ensures i <= |log|
  {
    if cursor.None? || forall e | e in log :: !IsAt(e, cursor.value) then 0
    else FirstAt(log, cursor.value) + 1
  }

  function FirstAt(log: seq<IndexedEvent>, c: Cursor): (i: nat)
    requires exists e :: e in log && IsAt(e, c)
    ensures i < |log| && IsAt(log[i], c) && forall j | 0 <= j < i :: !IsAt(log[j], c)
  {
    if IsAt(log[0], c) then 0 else 1 + FirstAt(log[1..], c)
  }

  /** The events a page holds. */
  function PageFrom(log: seq<IndexedEvent>, cursor: Option<Cursor>, limit: nat): seq<IndexedEvent> {
    var lo := ResumeIndex(log, cursor);
    log[lo..Min(lo + limit, |log|)]
  }

  /** The first page behind the event a cursor names; without a cursor, or when it names none, the first page of all. */
  lemma PageMeans(log: seq<IndexedEvent>, cursor: Option<Cursor>, limit: nat, k: nat)
    requires k <= |log|
    requires forall e | e in log[..k] :: cursor != Some(Cursor(e.txDigest, e.eventSeq))
    requires k < |log| ==> cursor == Some(Cursor(log[k].txDigest, log[k].eventSeq))
    ensures PageFrom(log, cursor, limit) == if k < |log| then log[k + 1..Min(k + 1 + limit, |log|)] else log[..Min(limit, |log|)]
  {
    assert forall j | 0 <= j < k :: log[j] in log[..k];
    if k < |log| {
      assert log[k] in log && IsAt(log[k], cursor.value);
    } else {
      assert log[..k] == log;
    }
  }

  datatype EventPage = EventPage(events: seq<IndexedEvent>, nextCursor: Option<Cursor>, hasNextPage: bool)

  class InMemoryEventSource {
    var buffer: seq<IndexedEvent>

    constructor (initial: seq<IndexedEvent>)
      ensures buffer == initial
    {
      buffer := initial;
    }

    method Push(events: seq<IndexedEvent>)
      modifies this
      ensures buffer == old(buffer) + events
    {
      buffer := buffer + events;
    }

    method FetchPage(cursor: Option<Cursor>, limit: nat) returns (page: EventPage)
      ensures page.events == PageFrom(buffer, cursor, limit)
      ensures page.hasNextPage <==> ResumeIndex(buffer, cursor) + |page.events| < |buffer|
      ensures page.nextCursor == if page.events == [] then cursor else Some(CursorAt(page.events[|page.events| - 1]))
    {
      var startIdx := 0;
      if cursor.Some? {
        var k := 0;
        while k < |buffer| && !IsAt(buffer[k], cursor.value)
          invariant 0 <= k <= |buffer| && forall j | 0 <= j < k :: !IsAt(buffer[j], cursor.value)
        {
          k := k + 1;
        }
        startIdx := if k == |buffer| then 0 else k + 1;
        assert k < |buffer| ==> buffer[k] in buffer;
      }
      var stop := if startIdx + limit < |buffer| then startIdx + limit else |buffer|;
      var slice := buffer[startIdx..stop];
      var next := cursor;
      if |slice| > 0 {
        next := Some(CursorAt(slice[|slice| - 1]));
      }
      page := EventPage(slice, next, startIdx + |slice| < |buffer|);
    }
  }

  // ----- one tick -----

  function CursorOf(c: Checkpoint): Option<Cursor> {
    if c.lastTxDigest.None? then None else Some(Cursor(c.lastTxDigest.value, c.lastEventSeq))
  }

  function CheckpointAt(e: IndexedEvent): Checkpoint { Checkpoint(e.checkpoint, e.eventSeq, Some(e.txDigest)) }

  function DispatchAll<R>(s: Store<R>, h: Handlers<R>, es: seq<IndexedEvent>): Store<R> {
    if es == [] then s else Dispatched(DispatchAll(s, h, es[..|es| - 1]), h, es[|es| - 1])
  }

  /** No dispatch among the first `k` of a page throws. */
  ghost predicate Quiet<R>(s: Store<R>, h: Handlers<R>, page: seq<IndexedEvent>, down: set<string>, k: nat)
    requires k <= |page|
  {
    forall i | 0 <= i < k :: !DispatchThrows(DispatchAll(s, h, page[..i]), h, page[i], down)
  }

  lemma DispatchNext<R>(s: Store<R>, h: Handlers<R>, page: seq<IndexedEvent>, k: nat)
    requires k < |page|
    ensures DispatchAll(s, h, page[..k + 1]) == Dispatched(DispatchAll(s, h, page[..k]), h, page[k])
  {
    assert page[..k + 1][..k] == page[..k];
  }

  /** What dispatching events in order publishes. */
  function PublishedAll<R>(s: Store<R>, h: Handlers<R>, es: seq<IndexedEvent>, down: set<string>): seq<PubsubPayload> {
    if es == [] then [] else
    var init, e := es[..|es| - 1], es[|es| - 1];
    PublishedAll(s, h, init, down) + Published(DispatchAll(s, h, init), h, e, down)
  }

  lemma PublishNext<R>(s: Store<R>, h: Handlers<R>, page: seq<IndexedEvent>, down: set<string>, k: nat)
    requires k < |page|
    ensures PublishedAll(s, h, page[..k + 1], down)
         == PublishedAll(s, h, page[..k], down) + Published(DispatchAll(s, h, page[..k]), h, page[k], down)
  {
    hide Published;
    hide DispatchAll;
    assert page[..k + 1][..k] == page[..k];
  }

  /** The page a tick reads. */
  function PageOf(log: seq<IndexedEvent>, c: Checkpoint, pageSize: nat): seq<IndexedEvent> {
    PageFrom(log, CursorOf(c), pageSize)
  }

  function Advanced<R>(s: Store<R>, page: seq<IndexedEvent>): Store<R> {
    if page == [] then s else s.(checkpoint := CheckpointAt(page[|page| - 1]))
  }

  lemma NothingDispatched<R>(s: Store<R>, h: Handlers<R>, down: set<string>)
    ensures DispatchAll(s, h, []) == s && PublishedAll(s, h, [], down) == []
  {
  }

  datatype TickResult = TickOk(processed: nat, hasMore: bool) | TickThrew

  /** The tick's loop: dispatch in order, stopping behind the first event whose dispatch throws. */
  method DispatchPage<R>(events: seq<IndexedEvent>, storage: InMemoryStorage<R>, pubsub: Pubsub)
    returns (ok: bool, ghost reached: nat)
    modifies storage, pubsub
    ensures reached <= |events|
    ensures ok ==> reached == |events| && Quiet(old(storage.State()), storage.handlers, events, pubsub.down, reached)
    ensures !ok ==>
      && reached > 0
      && Quiet(old(storage.State()), storage.handlers, events, pubsub.down, reached - 1)
      && DispatchThrows(DispatchAll(old(storage.State()), storage.handlers, events[..reached - 1]),
                        storage.handlers, events[reached - 1], pubsub.down)
    ensures storage.State() == DispatchAll(old(storage.State()), storage.handlers, events[..reached])
    ensures pubsub.published
         == old(pubsub.published) + PublishedAll(old(storage.State()), storage.handlers, events[..reached], pubsub.down)
  {
    hide DispatchAll;
    hide PublishedAll;
    hide Published;
    hide DispatchThrows;
    hide Dispatched;
    ghost var s, h := storage.State(), storage.handlers;
    reached := 0;
    NothingDispatched(s, h, pubsub.down);
    for i := 0 to |events|
      invariant reached == i
      invariant storage.State() == DispatchAll(s, h, events[..i])
      invariant Quiet(s, h, events, pubsub.down, i)
      invariant pubsub.published == old(pubsub.published) + PublishedAll(s, h, events[..i], pubsub.down)
    {
      DispatchNext(s, h, events, i);
      PublishNext(s, h, events, pubsub.down, i);
      ok := Dispatch(events[i], storage, pubsub);
      reached := i + 1;
      if !ok {
        return false, reached;
      }
    }
    ok := true;
  }

  /**
   * What one pass may do to a store: it dispatches the page in order. When all of it goes through, the checkpoint moves
   * to the page's last event; when dispatching event `reached - 1` throws, the store stays as that dispatch left it.
   */
  ghost predicate TickEffect<R>(
    s: Store<R>, h: Handlers<R>, page: seq<IndexedEvent>, down: set<string>, r: TickResult, reached: nat, after: Store<R>)
  {
    && reached <= |page|
    && (r.TickOk? ==>
      reached == |page| == r.processed && Quiet(s, h, page, down, reached) && after == Advanced(DispatchAll(s, h, page), page))
    && (r.TickThrew? ==>
      && reached > 0 && Quiet(s, h, page, down, reached - 1)
      && DispatchThrows(DispatchAll(s, h, page[..reached - 1]), h, page[reached - 1], down)
      && after == DispatchAll(s, h, page[..reached]))
  }

  lemma {:induction false} DispatchKeepsCheckpoint<R>(s: Store<R>, h: Handlers<R>, es: seq<IndexedEvent>)
    ensures DispatchAll(s, h, es).checkpoint == s.checkpoint
  {
    if es != [] {
      DispatchKeepsCheckpoint(s, h, es[..|es| - 1]);
    }
  }

  /** The checkpoint moves to the last event of a page that went through, and stays where it is otherwise. */
  lemma CheckpointMoves<R>(
    s: Store<R>, h: Handlers<R>, page: seq<IndexedEvent>, down: set<string>, r: TickResult, reached: nat, after: Store<R>)
    requires TickEffect(s, h, page, down, r, reached, after)
    ensures after.checkpoint ==
      if r.TickOk? && page != [] then
        var e := page[|page| - 1];
        Checkpoint(e.checkpoint, e.eventSeq, Some(e.txDigest))
      else s.checkpoint
  {
    hide DispatchAll;
    hide DispatchThrows;
    DispatchKeepsCheckpoint(s, h, page);
    DispatchKeepsCheckpoint(s, h, page[..reached]);
  }

  method Tick<R>(storage: InMemoryStorage<R>, pubsub: Pubsub, source: InMemoryEventSource, pageSize: nat)
    returns (r: TickResult, ghost reached: nat)
    modifies storage, pubsub
    ensures var s := old(storage.State());
            var page := PageOf(source.buffer, s.checkpoint, pageSize);
            && TickEffect(s, storage.handlers, page, pubsub.down, r, reached, storage.State())
            && pubsub.published
               == old(pubsub.published) + PublishedAll(s, storage.handlers, page[..reached], pubsub.down)
            && (r.TickOk? ==> (r.hasMore <==> ResumeIndex(source.buffer, CursorOf(s.checkpoint)) + |page| < |source.buffer|))
  {
    ghost var s := storage.State();
    var page := source.FetchPage(CursorOf(storage.checkpoint), pageSize);
    var events := page.events;
    var ok;
    ok, reached := DispatchPage(events, storage, pubsub);
    if !ok {
      return TickThrew, reached;
    }
    assert events[..|events|] == events;
    if |events| > 0 {
      storage.UpdateCheckpoint(CheckpointAt(events[|events| - 1]));
    }
    r := TickOk(|events|, page.hasNextPage);
  }
}
