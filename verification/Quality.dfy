/** The quality oracle's measurements: one server's score, and the report over all servers. */
module Quality {
  import opened Common
  import opened OrderStatistics

  datatype Status = Success | Error | Timeout | Refunded

  /** A latency that is null or not finite is None. */
  datatype CallSample = CallSample(serverObjectId: string, status: Status, latencyMs: Option<real>)

  datatype ServerQuality = ServerQuality(
    serverObjectId: string, scoreX100: int, uptimeX100: int, p95LatencyMs: int, errorRateX100: int, sampleCount: nat)

  const LATENCY_CEILING_MS := 2000.0

  function ToX100(frac: real): int { Max(0, Min(10_000, RoundHalfUp(frac * 10_000.0))) }

  function CountSuccess(s: seq<CallSample>): nat {
    if s == [] then 0 else CountSuccess(s[..|s| - 1]) + (if s[|s| - 1].status.Success? then 1 else 0)
  }

  function Latencies(s: seq<CallSample>): seq<real> {
    if s == [] then []
    else Latencies(s[..|s| - 1]) + (if s[|s| - 1].latencyMs.Some? then [s[|s| - 1].latencyMs.value] else [])
  }

  /** The metrics as a function of the counts and the percentile they are made from. */
  function Metrics(id: string, total: nat, success: nat, p95: real): ServerQuality
    requires 0 < total
  {
    var uptime, errorRate := success as real / total as real, (total - success) as real / total as real;
    var latencyScore := ClampReal(1.0 - p95 / LATENCY_CEILING_MS, 0.0, 1.0);
    ServerQuality(
      id,
      ToX100(0.5 * uptime + 0.3 * (1.0 - errorRate) + 0.2 * latencyScore),
      ToX100(uptime), RoundHalfUp(p95), ToX100(errorRate), total)
  }

  function QualityOf(id: string, s: seq<CallSample>): Option<ServerQuality> {
    if s == [] then None else Some(Metrics(id, |s|, CountSuccess(s), P95(Latencies(s))))
  }

  method ComputeServerQuality(id: string, samples: seq<CallSample>) returns (q: Option<ServerQuality>)
    ensures q == QualityOf(id, samples)
  {
    if |samples| == 0 {
      return None;
    }
    var success := 0;
    var latencies: seq<real> := [];
    for i := 0 to |samples|
      invariant success == CountSuccess(samples[..i]) && latencies == Latencies(samples[..i])
    {
      assert samples[..i + 1][..i] == samples[..i];
      if samples[i].status.Success? {
        success := success + 1;
      }
      if samples[i].latencyMs.Some? {
        latencies := latencies + [samples[i].latencyMs.value];
      }
    }
    assert samples[..|samples|] == samples;
    q := Some(Metrics(id, |samples|, success, P95(latencies)));
  }

  // ----- monotonicity -----

  /** `b` is `a` with some errors turned into successes and some latencies lowered. */
  predicate Improves(a: seq<CallSample>, b: seq<CallSample>) {
    && |a| == |b|
    && forall i | 0 <= i < |a| ::
      && (a[i].status.Success? ==> b[i].status.Success?)
      && (a[i].latencyMs.Some? <==> b[i].latencyMs.Some?)
      && (a[i].latencyMs.Some? ==> b[i].latencyMs.value <= a[i].latencyMs.value)
  }

  lemma {:induction false} ImprovedParts(a: seq<CallSample>, b: seq<CallSample>)
    requires Improves(a, b)
    ensures CountSuccess(a) <= CountSuccess(b) <= |b|
    ensures Pointwise(Latencies(b), Latencies(a))
  {
    if a != [] {
      ImprovedParts(a[..|a| - 1], b[..|b| - 1]);
    }
  }

  lemma RoundMonotone(x: real, y: real)
    requires x <= y
    ensures RoundHalfUp(x) <= RoundHalfUp(y)
  {
  }

  lemma ToX100Monotone(x: real, y: real)
    requires x <= y
    ensures 0 <= ToX100(x) <= ToX100(y) <= 10_000
  {
    RoundMonotone(x * 10_000.0, y * 10_000.0);
  }

  lemma QuotientMonotone(x: nat, y: nat, n: nat)
    requires x <= y && n > 0
    ensures x as real / n as real <= y as real / n as real
  {
  }

  lemma MetricsMonotone(id: string, total: nat, s0: nat, s1: nat, p0: real, p1: real)
    requires 0 < total && s0 <= s1 <= total && p1 <= p0
    ensures Metrics(id, total, s0, p0).scoreX100 <= Metrics(id, total, s1, p1).scoreX100
  {
    var u0, u1 := s0 as real / total as real, s1 as real / total as real;
    QuotientMonotone(s0, s1, total);
    var e0, e1 := (total - s0) as real / total as real, (total - s1) as real / total as real;
    QuotientMonotone(total - s1, total - s0, total);
    var l0 := ClampReal(1.0 - p0 / LATENCY_CEILING_MS, 0.0, 1.0);
    var l1 := ClampReal(1.0 - p1 / LATENCY_CEILING_MS, 0.0, 1.0);
    assert l0 <= l1;
    ToX100Monotone(0.5 * u0 + 0.3 * (1.0 - e0) + 0.2 * l0, 0.5 * u1 + 0.3 * (1.0 - e1) + 0.2 * l1);
  }

  /** Turning errors into successes or lowering latencies never lowers the score, which stays in 0..10000. */
  lemma ScoreMonotone(id: string, a: seq<CallSample>, b: seq<CallSample>)
    requires Improves(a, b) && a != []
    ensures QualityOf(id, a).Some? && QualityOf(id, b).Some?
    ensures 0 <= QualityOf(id, a).value.scoreX100 <= QualityOf(id, b).value.scoreX100 <= 10_000
    ensures QualityOf(id, b).value.p95LatencyMs <= QualityOf(id, a).value.p95LatencyMs
  {
    ImprovedParts(a, b);
    P95Monotone(Latencies(b), Latencies(a));
    RoundMonotone(P95(Latencies(b)), P95(Latencies(a)));
    MetricsMonotone(id, |a|, CountSuccess(a), CountSuccess(b), P95(Latencies(a)), P95(Latencies(b)));
  }

  // ----- what the numbers mean -----

  /** Halves round up, so a quotient and its complement add up to one more than the whole when both are halves. */
  lemma RoundedComplement(x: real, whole: int)
    ensures RoundHalfUp(x) + RoundHalfUp(whole as real - x)
         == whole + (if x - x.Floor as real == 0.5 then 1 else 0)
  {
    var k := x.Floor;
    var f := x - k as real;
    FloorUnique(x + 0.5, if f < 0.5 then k else k + 1);
    FloorUnique(whole as real - x + 0.5, if f <= 0.5 then whole - k else whole - k - 1);
  }

  lemma FloorUnique(x: real, k: int)
    requires k as real <= x < k as real + 1.0
    ensures x.Floor == k
  {
  }

  lemma RoundedInRange(x: real, whole: int)
    requires 0.0 <= x <= whole as real
    ensures 0 <= RoundHalfUp(x) <= whole
  {
  }

  lemma UptimeFraction(success: nat, total: nat) returns (u: real)
    requires 0 < total && success <= total
    ensures u == success as real / total as real && 0.0 <= u <= 1.0
    ensures (total - success) as real / total as real == 1.0 - u
  {
    var t, s := total as real, success as real;
    u := s / t;
    QuotientMonotone(0, success, total);
    QuotientMonotone(success, total, total);
    QuotientIs(0.0, t, 0.0);
    QuotientIs(t, t, 1.0);
    QuotientTimes(s, t);
    assert (1.0 - u) * t == t - u * t;
    QuotientIs(t - s, t, 1.0 - u);
  }

  lemma QuotientTimes(a: real, t: real)
    requires t > 0.0
    ensures (a / t) * t == a
  {
  }

  lemma QuotientIs(a: real, t: real, q: real)
    requires t > 0.0 && a == q * t
    ensures a / t == q
  {
  }

  /**
   * The score is 8000 points times the uptime plus one point per millisecond the percentile stays under the ceiling;
   * uptime and error rate add up to 10000, or to 10001 when both were rounded up from a half. The percentile is rounded to the
   * nearest millisecond, and the server and the number of its samples are reported as they are.
   */
  lemma MetricsMean(id: string, total: nat, success: nat, p95: real)
    requires 0 < total && success <= total
    ensures var q := Metrics(id, total, success, p95);
            var u := success as real / total as real;
            && q.scoreX100 == RoundHalfUp(8_000.0 * u + ClampReal(2_000.0 - p95, 0.0, 2_000.0))
            && q.serverObjectId == id && q.sampleCount == total
            && -0.5 <= q.p95LatencyMs as real - p95 <= 0.5
            && q.uptimeX100 == RoundHalfUp(10_000.0 * u)
            && q.uptimeX100 + q.errorRateX100
                 == 10_000 + (if 10_000.0 * u - (10_000.0 * u).Floor as real == 0.5 then 1 else 0)
  {
    hide RoundHalfUp;
    var u := UptimeFraction(success, total);
    var x, y := 10_000.0 * u, 8_000.0 * u + ClampReal(2_000.0 - p95, 0.0, 2_000.0);
    assert 10_000.0 * (0.5 * u + 0.3 * (1.0 - (1.0 - u)) + 0.2 * ClampReal(1.0 - p95 / LATENCY_CEILING_MS, 0.0, 1.0)) == y;
    RoundedInRange(x, 10_000);
    RoundedInRange(10_000.0 - x, 10_000);
    RoundedInRange(y, 10_000);
    RoundedComplement(x, 10_000);
    RoundedNear(p95);
  }

  lemma RoundedNear(x: real)
    ensures -0.5 <= RoundHalfUp(x) as real - x <= 0.5
  {
  }

  // ----- grouping -----

  function Filter(s: seq<CallSample>, id: string): seq<CallSample> {
    if s == [] then []
    else Filter(s[..|s| - 1], id) + (if s[|s| - 1].serverObjectId == id then [s[|s| - 1]] else [])
  }

  /** The ids that occur. */
  function Servers(s: seq<CallSample>): set<string> { set x | x in s :: x.serverObjectId }

  /** Lexicographic order on ids. */
  predicate Less(a: string, b: string) {
    b != "" && (a == "" || a[0] < b[0] || (a[0] == b[0] && Less(a[1..], b[1..])))
  }

  lemma {:induction false} LessTotal(a: string, b: string)
    ensures !Less(a, a)
    ensures Less(a, b) ==> !Less(b, a)
    ensures a == b || Less(a, b) || Less(b, a)
  {
    if a != "" {
      LessTotal(a[1..], a[1..]);
      if b != "" && a[0] == b[0] {
        LessTotal(a[1..], b[1..]);
        assert a == [a[0]] + a[1..] && b == [b[0]] + b[1..];
      }
    }
  }

  /** The first difference decides, and a proper prefix comes first. */
  lemma {:induction false} LessIff(a: string, b: string, k: nat)
    requires k <= |a| && k <= |b| && a[..k] == b[..k]
    requires k < |a| && k < |b| ==> a[k] != b[k]
    ensures Less(a, b) <==> k < |b| && (k == |a| || a[k] < b[k])
  {
    if k > 0 {
      assert a[0] == a[..k][0] == b[..k][0] == b[0];
      assert a[1..][..k - 1] == a[..k][1..] == b[..k][1..] == b[1..][..k - 1];
      LessIff(a[1..], b[1..], k - 1);
    }
  }

  lemma {:induction false} LessTransitive(a: string, b: string, c: string)
    requires Less(a, b) && Less(b, c)
    ensures Less(a, c)
  {
    if a != "" && a[0] == b[0] == c[0] {
      LessTransitive(a[1..], b[1..], c[1..]);
    }
  }

  predicate Increasing(out: seq<ServerQuality>) {
    forall i, j | 0 <= i < j < |out| :: Less(out[i].serverObjectId, out[j].serverObjectId)
  }

  function IdSet(out: seq<ServerQuality>): set<string> { set q | q in out :: q.serverObjectId }

  /** The entry of a server, measured on that server's own samples. */
  function EntryOf(id: string, s: seq<CallSample>): Option<ServerQuality> { QualityOf(id, Filter(s, id)) }

  predicate Measured(out: seq<ServerQuality>, s: seq<CallSample>) {
    forall q | q in out :: EntryOf(q.serverObjectId, s) == Some(q)
  }

  /** One entry per server that occurs, ids strictly increasing. */
  ghost predicate IsReport(out: seq<ServerQuality>, s: seq<CallSample>) {
    && Increasing(out)
    && IdSet(out) == Servers(s)
    && Measured(out, s)
  }

  lemma {:induction false} FilterOccurs(s: seq<CallSample>, id: string)
    ensures Filter(s, id) != [] <==> id in Servers(s)
  {
    if s != [] {
      var init, x := s[..|s| - 1], s[|s| - 1];
      FilterOccurs(init, id);
      assert s == init + [x];
      assert Servers(s) == Servers(init) + {x.serverObjectId};
    }
  }

  /** An entry put in its place. */
  function InsertById(q: ServerQuality, out: seq<ServerQuality>): (r: seq<ServerQuality>)
    requires Increasing(out) && q.serverObjectId !in IdSet(out)
    ensures Increasing(r) && forall p :: p in r <==> p == q || p in out
  {
    if out == [] then [q] else
    LessTotal(q.serverObjectId, out[0].serverObjectId);
    assert out == [out[0]] + out[1..];
    assert out[0] in out;
    if Less(q.serverObjectId, out[0].serverObjectId) then
      assert forall i | 1 <= i < |out| :: Less(q.serverObjectId, out[i].serverObjectId) by {
        forall i | 1 <= i < |out| ensures Less(q.serverObjectId, out[i].serverObjectId) {
          LessTransitive(q.serverObjectId, out[0].serverObjectId, out[i].serverObjectId);
        }
      }
      [q] + out
    else
      var t := InsertById(q, out[1..]);
      assert forall i | 0 <= i < |t| :: Less(out[0].serverObjectId, t[i].serverObjectId) by {
        assert forall i | 0 <= i < |t| :: t[i] in t;
      }
      [out[0]] + t
  }

  predicate DistinctIds(out: seq<ServerQuality>) {
    forall i, j | 0 <= i < j < |out| :: out[i].serverObjectId != out[j].serverObjectId
  }

  /** The sort by id. */
  function SortById(out: seq<ServerQuality>): (r: seq<ServerQuality>)
    requires DistinctIds(out)
    ensures Increasing(r) && forall p :: p in r <==> p in out
  {
    if out == [] then [] else
    var init, q := out[..|out| - 1], out[|out| - 1];
    assert out == init + [q];
    assert q.serverObjectId !in IdSet(init) by {
      assert forall p | p in init :: exists i :: 0 <= i < |init| && out[i] == p;
    }
    var r := SortById(init);
    assert IdSet(r) == IdSet(init);
    InsertById(q, r)
  }

  lemma OneMoreServer(s: seq<CallSample>, i: nat)
    requires i < |s|
    ensures Servers(s[..i + 1]) == Servers(s[..i]) + {s[i].serverObjectId}
    ensures forall id ::
      Filter(s[..i + 1], id) == Filter(s[..i], id) + (if s[i].serverObjectId == id then [s[i]] else [])
  {
    assert s[..i + 1] == s[..i] + [s[i]] && s[..i + 1][..i] == s[..i];
  }

  predicate Grouped(byServer: map<string, seq<CallSample>>, s: seq<CallSample>) {
    byServer.Keys == Servers(s) && forall id | id in byServer :: byServer[id] == Filter(s, id)
  }

  lemma GroupOne(byServer: map<string, seq<CallSample>>, s: seq<CallSample>, i: nat)
    requires i < |s| && Grouped(byServer, s[..i])
    ensures var id := s[i].serverObjectId;
            Grouped(byServer[id := (if id in byServer then byServer[id] else []) + [s[i]]], s[..i + 1])
  {
    OneMoreServer(s, i);
    FilterOccurs(s[..i], s[i].serverObjectId);
  }

  /** The first loop: samples by server. */
  method GroupByServer(samples: seq<CallSample>) returns (byServer: map<string, seq<CallSample>>)
    ensures Grouped(byServer, samples)
  {
    byServer := map[];
    for i := 0 to |samples|
      invariant Grouped(byServer, samples[..i])
    {
      GroupOne(byServer, samples, i);
      var id := samples[i].serverObjectId;
      if id in byServer {
        byServer := byServer[id := byServer[id] + [samples[i]]];
      } else {
        assert [] + [samples[i]] == [samples[i]];
        byServer := byServer[id := [samples[i]]];
      }
    }
    assert samples[..|samples|] == samples;
  }

  lemma ReportOne(out: seq<ServerQuality>, q: ServerQuality, s: seq<CallSample>)
    requires DistinctIds(out) && q.serverObjectId !in IdSet(out)
    requires Measured(out, s) && EntryOf(q.serverObjectId, s) == Some(q)
    ensures IdSet(out + [q]) == IdSet(out) + {q.serverObjectId}
    ensures DistinctIds(out + [q]) && Measured(out + [q], s)
  {
    hide EntryOf;
    assert forall i | 0 <= i < |out| :: out[i] in out;
    assert forall p | p in out + [q] :: p in out || p == q;
    assert forall p | p in out || p == q :: p in out + [q];
  }

  lemma NothingReported(s: seq<CallSample>, byServer: map<string, seq<CallSample>>)
    ensures DistinctIds([]) && IdSet([]) == byServer.Keys - byServer.Keys && Measured([], s)
  {
  }

  lemma GroupMeasured(byServer: map<string, seq<CallSample>>, s: seq<CallSample>, id: string)
    requires Grouped(byServer, s) && id in byServer
    ensures var q := QualityOf(id, byServer[id]);
            q.Some? && q.value.serverObjectId == id && EntryOf(id, s) == q
  {
    FilterOccurs(s, id);
  }

  lemma SortedReport(out: seq<ServerQuality>, s: seq<CallSample>, byServer: map<string, seq<CallSample>>)
    requires DistinctIds(out) && Measured(out, s) && Grouped(byServer, s) && IdSet(out) == byServer.Keys
    ensures IsReport(SortById(out), s)
  {
    hide EntryOf;
    hide SortById;
    hide Increasing;
    assert IdSet(SortById(out)) == IdSet(out);
  }

  /** Group the samples by server, measure each group, and sort the entries by id. */
  method ComputeAllServerQuality(samples: seq<CallSample>) returns (out: seq<ServerQuality>)
    ensures IsReport(out, samples)
  {
    hide *;
    var byServer := GroupByServer(samples);
    var entries: seq<ServerQuality> := [];
    NothingReported(samples, byServer);
    var todo := byServer.Keys;
    while todo != {}
      invariant todo <= byServer.Keys && DistinctIds(entries)
      invariant IdSet(entries) == byServer.Keys - todo
      invariant Measured(entries, samples)
      decreases todo
    {
      var id :| id in todo;
      todo := todo - {id};
      var q := ComputeServerQuality(id, byServer[id]);
      GroupMeasured(byServer, samples, id);
      ReportOne(entries, q.value, samples);
      entries := entries + [q.value];
    }
    SortedReport(entries, samples, byServer);
    out := SortById(entries);
  }

  // ----- the report depends only on the multiset of samples -----

  lemma {:induction false} ReportsAgree(a: seq<ServerQuality>, b: seq<ServerQuality>)
    requires Increasing(a) && Increasing(b) && IdSet(a) == IdSet(b)
    requires forall p, q | p in a && q in b && p.serverObjectId == q.serverObjectId :: p == q
    ensures a == b
  {
    hide Less;
    hide IdSet;
    FirstAgree(a, b);
    if a != [] {
      TailIds(a);
      TailIds(b);
      ReportsAgree(a[1..], b[1..]);
      assert a == [a[0]] + a[1..] && b == [b[0]] + b[1..];
    }
  }

  lemma FirstAgree(a: seq<ServerQuality>, b: seq<ServerQuality>)
    requires Increasing(a) && Increasing(b) && IdSet(a) == IdSet(b)
    requires forall p, q | p in a && q in b && p.serverObjectId == q.serverObjectId :: p == q
    ensures a == [] <==> b == []
    ensures a != [] ==> a[0] == b[0]
  {
    hide Less;
    assert a != [] ==> a[0].serverObjectId in IdSet(b);
    assert b != [] ==> b[0].serverObjectId in IdSet(a);
    if a != [] {
      var j :| 0 <= j < |b| && b[j].serverObjectId == a[0].serverObjectId;
      var i :| 0 <= i < |a| && a[i].serverObjectId == b[0].serverObjectId;
      LessTotal(a[0].serverObjectId, b[0].serverObjectId);
      assert i == 0 || j == 0;
    }
  }

  lemma TailIds(a: seq<ServerQuality>)
    requires Increasing(a) && a != []
    ensures IdSet(a[1..]) == IdSet(a) - {a[0].serverObjectId}
  {
    assert a == [a[0]] + a[1..];
    forall i | 1 <= i < |a| ensures a[i].serverObjectId != a[0].serverObjectId {
      LessTotal(a[0].serverObjectId, a[i].serverObjectId);
    }
  }

  function CountIf(s: seq<CallSample>, p: CallSample -> bool): nat {
    if s == [] then 0 else CountIf(s[..|s| - 1], p) + (if p(s[|s| - 1]) then 1 else 0)
  }

  lemma {:induction false} CountIfConcat(a: seq<CallSample>, b: seq<CallSample>, p: CallSample -> bool)
    ensures CountIf(a + b, p) == CountIf(a, p) + CountIf(b, p)
  {
    if b == [] {
      assert a + b == a;
    } else {
      CountIfConcat(a, b[..|b| - 1], p);
      assert (a + b)[..|a + b| - 1] == a + b[..|b| - 1];
    }
  }

  lemma RemoveAt(t: seq<CallSample>, k: nat) returns (rest: seq<CallSample>)
    requires k < |t|
    ensures rest == t[..k] + t[k + 1..] && multiset(rest) == multiset(t) - multiset{t[k]}
  {
    rest := t[..k] + t[k + 1..];
    assert t == t[..k] + [t[k]] + t[k + 1..];
  }

  lemma CountIfOne(x: CallSample, p: CallSample -> bool)
    ensures CountIf([x], p) == if p(x) then 1 else 0
  {
    assert [x][..0] == [];
  }

  lemma CountIfRemove(t: seq<CallSample>, k: nat, p: CallSample -> bool)
    requires k < |t|
    ensures CountIf(t, p) == CountIf(t[..k] + t[k + 1..], p) + (if p(t[k]) then 1 else 0)
  {
    hide CountIf;
    var pre, x, post := t[..k], [t[k]], t[k + 1..];
    assert t == pre + (x + post);
    CountIfConcat(pre, x + post, p);
    CountIfConcat(x, post, p);
    CountIfConcat(pre, post, p);
    CountIfOne(t[k], p);
  }

  lemma {:induction false} PermutationCounts(s: seq<CallSample>, t: seq<CallSample>, p: CallSample -> bool)
    requires multiset(s) == multiset(t)
    ensures CountIf(s, p) == CountIf(t, p)
  {
    if s == [] {
      assert |multiset(t)| == 0;
    } else {
      var init, x := s[..|s| - 1], s[|s| - 1];
      assert s == init + [x];
      assert x in multiset(t);
      var k :| 0 <= k < |t| && t[k] == x;
      var rest := RemoveAt(t, k);
      PermutationCounts(init, rest, p);
      CountIfRemove(t, k, p);
    }
  }

  function OfServer(id: string): CallSample -> bool { (s: CallSample) => s.serverObjectId == id }

  function Succeeded(id: string): CallSample -> bool {
    (s: CallSample) => s.serverObjectId == id && s.status.Success?
  }

  function Timed(id: string): CallSample -> bool {
    (s: CallSample) => s.serverObjectId == id && s.latencyMs.Some?
  }

  function AtMost(id: string, x: real): CallSample -> bool {
    (s: CallSample) => s.serverObjectId == id && s.latencyMs.Some? && s.latencyMs.value <= x
  }

  function BelowOf(id: string, x: real): CallSample -> bool {
    (s: CallSample) => s.serverObjectId == id && s.latencyMs.Some? && s.latencyMs.value < x
  }

  lemma {:induction false} FilterCounts(s: seq<CallSample>, id: string)
    ensures |Filter(s, id)| == CountIf(s, OfServer(id))
    ensures CountSuccess(Filter(s, id)) == CountIf(s, Succeeded(id))
    ensures |Latencies(Filter(s, id))| == CountIf(s, Timed(id))
  {
    if s != [] {
      var init, x := s[..|s| - 1], s[|s| - 1];
      FilterCounts(init, id);
      if x.serverObjectId == id {
        assert (Filter(init, id) + [x])[..|Filter(init, id)|] == Filter(init, id);
      } else {
        assert Filter(init, id) + [] == Filter(init, id);
      }
    }
  }

  lemma LatenciesSnoc(s: seq<CallSample>, x: CallSample, y: real)
    ensures CountAtMost(Latencies(s + [x]), y)
      == CountAtMost(Latencies(s), y) + (if x.latencyMs.Some? && x.latencyMs.value <= y then 1 else 0)
    ensures CountBelow(Latencies(s + [x]), y)
      == CountBelow(Latencies(s), y) + (if x.latencyMs.Some? && x.latencyMs.value < y then 1 else 0)
  {
    assert (s + [x])[..|s|] == s;
    if x.latencyMs.Some? {
      CountSnoc(Latencies(s), x.latencyMs.value, y);
    } else {
      assert Latencies(s) + [] == Latencies(s);
    }
  }

  lemma {:induction false} LatencyCounts(s: seq<CallSample>, id: string, y: real)
    ensures CountAtMost(Latencies(Filter(s, id)), y) == CountIf(s, AtMost(id, y))
    ensures CountBelow(Latencies(Filter(s, id)), y) == CountIf(s, BelowOf(id, y))
  {
    hide Latencies;
    hide CountAtMost;
    hide CountBelow;
    if s == [] {
      NoLatencies(id, y);
    } else {
      var init, x := s[..|s| - 1], s[|s| - 1];
      LatencyCounts(init, id, y);
      if x.serverObjectId == id {
        LatenciesSnoc(Filter(init, id), x, y);
      } else {
        assert Filter(init, id) + [] == Filter(init, id);
      }
    }
  }

  lemma NoLatencies(id: string, y: real)
    ensures CountAtMost(Latencies(Filter([], id)), y) == 0 && CountBelow(Latencies(Filter([], id)), y) == 0
  {
  }

  /** A latency that was measured is one of the server's calls. */
  lemma {:induction false} LatencyOfCall(s: seq<CallSample>, id: string, y: real)
    requires y in Latencies(Filter(s, id))
    ensures exists x :: x in s && Timed(id)(x) && x.latencyMs.value == y
  {
    var init, x := s[..|s| - 1], s[|s| - 1];
    assert s == init + [x];
    assert (Filter(init, id) + [x])[..|Filter(init, id)|] == Filter(init, id);
    assert Filter(init, id) + [] == Filter(init, id);
    if y in Latencies(Filter(init, id)) {
      LatencyOfCall(init, id, y);
    }
  }

  lemma {:induction false} SuccessesAmong(s: seq<CallSample>)
    ensures CountSuccess(s) <= |s|
  {
    if s != [] {
      SuccessesAmong(s[..|s| - 1]);
    }
  }

  lemma EntryIs(s: seq<CallSample>, id: string)
    ensures var own := Filter(s, id);
            EntryOf(id, s) == if own == [] then None else Some(Metrics(id, |own|, CountSuccess(own), P95(Latencies(own))))
  {
    hide Metrics;
  }

  /**
   * A server's entry, from the samples of all servers: with `p95` a latency of one of its calls that 95 in a hundred of
   * its timed calls do not exceed and fewer stay below (0 when none is timed), the score is 8000 points times its
   * success rate plus one point per millisecond the percentile stays under two seconds.
   */
  lemma EntryMeans(s: seq<CallSample>, id: string) returns (p95: real)
    requires id in Servers(s)
    ensures EntryOf(id, s).Some?
    ensures var q, calls, good := EntryOf(id, s).value, CountIf(s, OfServer(id)), CountIf(s, Succeeded(id));
            && 0 < calls && good <= calls
            && q.serverObjectId == id && q.sampleCount == calls
            && q.uptimeX100 == RoundHalfUp(10_000.0 * (good as real / calls as real))
            && q.scoreX100 == RoundHalfUp(8_000.0 * (good as real / calls as real) + ClampReal(2_000.0 - p95, 0.0, 2_000.0))
            && -0.5 <= q.p95LatencyMs as real - p95 <= 0.5
    ensures CountIf(s, Timed(id)) == 0 ==> p95 == 0.0
    ensures CountIf(s, Timed(id)) > 0 ==>
      && (exists x :: x in s && Timed(id)(x) && x.latencyMs.value == p95)
      && 100 * CountIf(s, AtMost(id, p95)) >= 95 * CountIf(s, Timed(id)) > 100 * CountIf(s, BelowOf(id, p95))
  {
    hide *;
    var own := Filter(s, id);
    var v := Latencies(own);
    p95 := P95(v);
    FilterOccurs(s, id);
    FilterCounts(s, id);
    SuccessesAmong(own);
    EntryIs(s, id);
    MetricsMean(id, |own|, CountSuccess(own), p95);
    P95Characterised(v);
    LatencyCounts(s, id, p95);
    if v != [] {
      LatencyOfCall(s, id, p95);
    }
  }

  lemma PermutationP95(s: seq<CallSample>, t: seq<CallSample>, id: string)
    requires multiset(s) == multiset(t)
    ensures P95(Latencies(Filter(s, id))) == P95(Latencies(Filter(t, id)))
  {
    var a, b := Latencies(Filter(s, id)), Latencies(Filter(t, id));
    FilterCounts(s, id);
    FilterCounts(t, id);
    PermutationCounts(s, t, Timed(id));
    if a != [] {
      var y := P95(b);
      P95Characterised(a);
      P95Characterised(b);
      LatencyCounts(s, id, y);
      LatencyCounts(t, id, y);
      PermutationCounts(s, t, AtMost(id, y));
      PermutationCounts(s, t, BelowOf(id, y));
      RankUnique(a, Rank(|a|), P95(a), y);
    }
  }

  lemma PermutationEntry(s: seq<CallSample>, t: seq<CallSample>, id: string)
    requires multiset(s) == multiset(t)
    ensures EntryOf(id, s) == EntryOf(id, t)
  {
    FilterCounts(s, id);
    FilterCounts(t, id);
    PermutationCounts(s, t, OfServer(id));
    PermutationCounts(s, t, Succeeded(id));
    PermutationP95(s, t, id);
  }

  lemma PermutationServers(s: seq<CallSample>, t: seq<CallSample>)
    requires multiset(s) == multiset(t)
    ensures Servers(s) == Servers(t)
  {
    forall id ensures id in Servers(s) <==> id in Servers(t) {
      FilterOccurs(s, id);
      FilterOccurs(t, id);
      FilterCounts(s, id);
      FilterCounts(t, id);
      PermutationCounts(s, t, OfServer(id));
    }
  }

  /** However the samples are ordered, the report is the same list. */
  lemma ReportOrderIndependent(a: seq<ServerQuality>, b: seq<ServerQuality>, s: seq<CallSample>, t: seq<CallSample>)
    requires IsReport(a, s) && IsReport(b, t) && multiset(s) == multiset(t)
    ensures a == b
  {
    PermutationServers(s, t);
    forall p, q | p in a && q in b && p.serverObjectId == q.serverObjectId ensures p == q {
      PermutationEntry(s, t, p.serverObjectId);
    }
    ReportsAgree(a, b);
  }

  // ----- no sample is lost or counted twice -----

  function TotalSamples(out: seq<ServerQuality>): nat {
    if out == [] then 0 else out[0].sampleCount + TotalSamples(out[1..])
  }

  function GroupSizes(out: seq<ServerQuality>, s: seq<CallSample>): nat {
    if out == [] then 0 else |Filter(s, out[0].serverObjectId)| + GroupSizes(out[1..], s)
  }

  lemma {:induction false} OneMoreSample(out: seq<ServerQuality>, s: seq<CallSample>, x: CallSample)
    requires Increasing(out)
    ensures GroupSizes(out, s + [x]) == GroupSizes(out, s) + (if x.serverObjectId in IdSet(out) then 1 else 0)
  {
    assert (s + [x])[..|s|] == s;
    if out != [] {
      OneMoreSample(out[1..], s, x);
      TailIds(out);
      assert out[0] in out;
    }
  }

  lemma {:induction false} GroupsPartition(out: seq<ServerQuality>, s: seq<CallSample>)
    requires Increasing(out) && Servers(s) <= IdSet(out)
    ensures GroupSizes(out, s) == |s|
  {
    if s == [] {
      NoSamples(out);
    } else {
      var init, x := s[..|s| - 1], s[|s| - 1];
      assert s == init + [x];
      assert Servers(s) == Servers(init) + {x.serverObjectId};
      GroupsPartition(out, init);
      OneMoreSample(out, init, x);
    }
  }

  lemma {:induction false} NoSamples(out: seq<ServerQuality>)
    ensures GroupSizes(out, []) == 0
  {
    if out != [] {
      NoSamples(out[1..]);
    }
  }

  lemma {:induction false} TotalsAreGroups(out: seq<ServerQuality>, s: seq<CallSample>)
    requires forall q | q in out :: EntryOf(q.serverObjectId, s) == Some(q)
    ensures TotalSamples(out) == GroupSizes(out, s)
  {
    if out != [] {
      assert out[0] in out && forall q | q in out[1..] :: q in out;
      TotalsAreGroups(out[1..], s);
    }
  }

  /** The sample counts of a report add up to the number of samples. */
  lemma ReportCountsEverySample(out: seq<ServerQuality>, s: seq<CallSample>)
    requires IsReport(out, s)
    ensures TotalSamples(out) == |s|
  {
    TotalsAreGroups(out, s);
    GroupsPartition(out, s);
  }
}
