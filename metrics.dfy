/**
 * Observability bookkeeping: telemetry counters, a bounded buffer of
 * request latencies with nearest-rank percentiles, per-endpoint request
 * counters, error counters, and the alert rules evaluated over them.
 * Times are milliseconds passed in as `now`.
 */
module Metrics {
  import opened Wrappers
  import Sorting
  import Volume

  const MAX_SAMPLES := 1000
  const MAX_ENDPOINT_LATENCIES := 100

  /**
   * The nearest-rank index `max(0, ceil(p / 100 * n) - 1)`: the smallest
   * index whose rank covers p percent of the n samples.
   */
  function RankIndex(p: nat, n: nat): (i: nat)
    requires p <= 100 && n > 0
    ensures i < n
    ensures (i + 1) * 100 >= p * n
    ensures i == 0 || i * 100 < p * n
  {
    var c := (p * n + 99) / 100;
    if c == 0 then 0 else c - 1
  }

  lemma RankIndexMonotone(p: nat, q: nat, n: nat)
    requires p <= q <= 100 && n > 0
    ensures RankIndex(p, n) <= RankIndex(q, n)
  {
    assert p * n <= q * n;
  }

  datatype LatencyStats = LatencyStats(p50: real, p95: real, p99: real, min: real, max: real, avg: int, count: Option<nat>)

  /** The smallest sample with at least p% of the samples at or below its position. */
  function Percentile(sorted: seq<real>, p: nat): (r: real)
    requires p <= 100 && |sorted| > 0
    ensures r in sorted
    ensures p == 100 ==> r == sorted[|sorted| - 1]
    ensures p == 0 ==> r == sorted[0]
  {
    sorted[RankIndex(p, |sorted|)]
  }

  /** calculatePercentiles over a copy sorted ascending; all zeros (and no count) for no samples. */
  function CalculatePercentiles(samples: seq<real>): (r: LatencyStats)
    ensures |samples| == 0 ==> r == LatencyStats(0.0, 0.0, 0.0, 0.0, 0.0, 0, None)
    ensures |samples| > 0 ==> r.count == Some(|samples|)
    ensures |samples| > 0 ==> r.min <= r.p50 <= r.p95 <= r.p99 <= r.max
    ensures |samples| > 0 ==> forall x :: x in samples ==> r.min <= x <= r.max
    ensures |samples| > 0 ==>
      (r.min in samples && r.max in samples && r.p50 in samples && r.p95 in samples && r.p99 in samples)
  {
    if |samples| == 0 then LatencyStats(0.0, 0.0, 0.0, 0.0, 0.0, 0, None)
    else
      var sorted := Sorting.SortBy(samples, Sorting.RealLe);
      var n := |sorted|;
      SortedStats(samples);
      LatencyStats(Percentile(sorted, 50), Percentile(sorted, 95), Percentile(sorted, 99),
        sorted[0], sorted[n - 1], Volume.Nearest(Volume.Sum(sorted) / n as real), Some(n))
  }

  /** The facts about the sorted copy that CalculatePercentiles states. */
  lemma SortedStats(samples: seq<real>)
    requires |samples| > 0
    ensures var sorted := Sorting.SortBy(samples, Sorting.RealLe);
      var n := |sorted|;
      Percentile(sorted, 50) <= Percentile(sorted, 95) <= Percentile(sorted, 99) &&
      sorted[0] <= Percentile(sorted, 50) && Percentile(sorted, 99) <= sorted[n - 1] &&
      (forall x :: x in samples ==> sorted[0] <= x <= sorted[n - 1]) &&
      (forall i :: 0 <= i < n ==> sorted[i] in samples)
  {
    var sorted := Sorting.SortBy(samples, Sorting.RealLe);
    Sorting.SortedReals(samples);
    PercentilesOrdered(sorted);
    SortedSpansSamples(samples, sorted);
  }

  /** On a sorted non-empty sequence the 50th, 95th and 99th percentiles lie in order between its ends. */
  lemma PercentilesOrdered(sorted: seq<real>)
    requires |sorted| > 0 && Sorting.SortedBy(sorted, Sorting.RealLe)
    ensures var n := |sorted|;
      Percentile(sorted, 50) <= Percentile(sorted, 95) <= Percentile(sorted, 99) &&
      sorted[0] <= Percentile(sorted, 50) && Percentile(sorted, 99) <= sorted[n - 1]
  {
    var n := |sorted|;
    RankIndexMonotone(50, 95, n);
    RankIndexMonotone(95, 99, n);
    SortedLe(sorted, RankIndex(50, n), RankIndex(95, n));
    SortedLe(sorted, RankIndex(95, n), RankIndex(99, n));
    SortedLe(sorted, 0, RankIndex(50, n));
    SortedLe(sorted, RankIndex(99, n), n - 1);
  }

  /** A sorted permutation holds exactly the samples, between its first and last element. */
  lemma SortedSpansSamples(samples: seq<real>, sorted: seq<real>)
    requires |sorted| > 0 && Sorting.SortedBy(sorted, Sorting.RealLe) && multiset(sorted) == multiset(samples)
    ensures forall x :: x in samples ==> sorted[0] <= x <= sorted[|sorted| - 1]
    ensures forall i :: 0 <= i < |sorted| ==> sorted[i] in samples
  {
    var n := |sorted|;
    forall i | 0 <= i < n ensures sorted[i] in samples {
      assert sorted[i] in multiset(sorted);
    }
    forall x | x in samples ensures sorted[0] <= x <= sorted[n - 1] {
      assert x in multiset(sorted);
      var k :| 0 <= k < n && sorted[k] == x;
      SortedLe(sorted, 0, k);
      SortedLe(sorted, k, n - 1);
    }
  }

  lemma SortedLe(s: seq<real>, i: nat, j: nat)
    requires Sorting.SortedBy(s, Sorting.RealLe) && i <= j < |s|
    ensures s[i] <= s[j]
  {
    if i < j {
      assert Sorting.RealLe(s[i], s[j]);
    }
  }

  /** The percentiles depend only on which latencies were recorded, not on their order. */
  lemma PercentilesOrderIndependent(a: seq<real>, b: seq<real>)
    requires multiset(a) == multiset(b)
    ensures CalculatePercentiles(a) == CalculatePercentiles(b)
  {
    Sorting.RealLeTotalOrder();
    Sorting.SortByPermutation(a, b, Sorting.RealLe);
    assert |a| == |multiset(a)| == |b|;
  }

  datatype EndpointData = EndpointData(count: nat, errors: nat, latencies: seq<real>)

  datatype EndpointStat = EndpointStat(endpoint: string, requests: nat, errors: nat, errorRate: real, avgLatency: int)

  datatype ErrorRecord = ErrorRecord(errorType: string, message: string, timestamp: int)

  /** `parseFloat((x).toFixed(2))` of a percentage of errors, 0 for no requests. */
  function ErrorRate(errors: nat, count: nat): (r: real)
    ensures count == 0 ==> r == 0.0
    ensures errors <= count ==> 0.0 <= r <= 100.0
  {
    if count == 0 then 0.0
    else
      var x := errors as real / count as real * 100.0;
      PercentRounding(errors, count);
      Volume.ToFixed(x, 100.0)
  }

  /** Rounding a share of at most all to two decimals stays within [0, 100]. */
  lemma PercentRounding(errors: nat, count: nat)
    requires count > 0
    ensures var x := errors as real / count as real * 100.0;
      errors <= count ==> 0.0 <= Volume.ToFixed(x, 100.0) <= 100.0
  {
    var x := errors as real / count as real * 100.0;
    if errors <= count {
      assert errors as real / count as real <= 1.0;
      Volume.ToFixedPercentBounds();
      Volume.ToFixedMonotone(0.0, x, 100.0);
      Volume.ToFixedMonotone(x, 100.0, 100.0);
    }
  }

  function StatOf(key: string, d: EndpointData): EndpointStat
  {
    EndpointStat(key, d.count, d.errors, ErrorRate(d.errors, d.count),
      if |d.latencies| > 0 then Volume.Nearest(Volume.Sum(d.latencies) / |d.latencies| as real) else 0)
  }

  /** The comparator `b.requests - a.requests`: more requests first. */
  predicate MoreRequests(a: EndpointStat, b: EndpointStat)
  {
    a.requests >= b.requests
  }

  lemma MoreRequestsTotalPreorder()
    ensures Sorting.TotalPreorder(MoreRequests)
  {
  }

  /** The per-endpoint statistics in the map's insertion order, before sorting. */
  function UnsortedStats(order: seq<string>, endpoints: map<string, EndpointData>): (r: seq<EndpointStat>)
    requires forall i :: 0 <= i < |order| ==> order[i] in endpoints
    ensures |r| == |order|
    ensures forall i :: 0 <= i < |order| ==> r[i] == StatOf(order[i], endpoints[order[i]])
  {
    seq(|order|, i requires 0 <= i < |order| => StatOf(order[i], endpoints[order[i]]))
  }

  datatype QueueStats = QueueStats(waiting: nat, active: nat)

  datatype MetricAlert = MetricAlert(level: string, alertType: string, value: real, threshold: real)

  function When(c: bool, a: MetricAlert): seq<MetricAlert>
  {
    if c then [a] else []
  }

  predicate HasAlert(alerts: seq<MetricAlert>, alertType: string)
  {
    exists i :: 0 <= i < |alerts| && alerts[i].alertType == alertType
  }

  lemma HasAlertConcat(a: seq<MetricAlert>, b: seq<MetricAlert>, t: string)
    ensures HasAlert(a + b, t) <==> HasAlert(a, t) || HasAlert(b, t)
  {
    if HasAlert(a + b, t) {
      var i :| 0 <= i < |a + b| && (a + b)[i].alertType == t;
      if i >= |a| { assert b[i - |a|].alertType == t; }
    }
    if HasAlert(a, t) {
      var i :| 0 <= i < |a| && a[i].alertType == t;
      assert (a + b)[i].alertType == t;
    }
    if HasAlert(b, t) {
      var i :| 0 <= i < |b| && b[i].alertType == t;
      assert (a + b)[|a| + i].alertType == t;
    }
  }

  lemma HasAlertOfFive(a1: seq<MetricAlert>, a2: seq<MetricAlert>, a3: seq<MetricAlert>,
                       a4: seq<MetricAlert>, a5: seq<MetricAlert>, t: string)
    ensures HasAlert(a1 + a2 + a3 + a4 + a5, t) <==>
      HasAlert(a1, t) || HasAlert(a2, t) || HasAlert(a3, t) || HasAlert(a4, t) || HasAlert(a5, t)
  {
    HasAlertConcat(a1, a2, t);
    HasAlertConcat(a1 + a2, a3, t);
    HasAlertConcat(a1 + a2 + a3, a4, t);
    HasAlertConcat(a1 + a2 + a3 + a4, a5, t);
  }

  lemma HasAlertWhen(c: bool, a: MetricAlert, t: string)
    ensures HasAlert(When(c, a), t) <==> c && a.alertType == t
  {
    if c && a.alertType == t {
      assert When(c, a)[0] == a;
    }
  }

  /**
   * checkAlerts' five rules over one snapshot, in their order: overall error
   * rate above 1 %, p95 above 500 ms, more than 40 waiting or active jobs,
   * telemetry failure rate above 5 %, and more than 5 minutes since the
   * last reading.
   */
  function AlertsFor(errorRate: real, p95: real, queue: Option<QueueStats>,
                     totalReceived: nat, totalFailed: nat, lastReceived: Option<int>, now: int)
    : (r: seq<MetricAlert>)
    ensures |r| <= 5
    ensures HasAlert(r, "high_error_rate") <==> errorRate > 1.0
    ensures HasAlert(r, "high_latency") <==> p95 > 500.0
    ensures HasAlert(r, "queue_full") <==> queue.Some? && queue.value.waiting + queue.value.active > 40
    ensures HasAlert(r, "high_failure_rate") <==>
      totalReceived > 0 && totalFailed as real / totalReceived as real * 100.0 > 5.0
    ensures HasAlert(r, "no_recent_readings") <==>
      lastReceived.Some? && (now - lastReceived.value) as real / 60000.0 > 5.0
  {
    var failureRate := if totalReceived > 0 then totalFailed as real / totalReceived as real * 100.0 else 0.0;
    var queued := if queue.Some? then queue.value.waiting + queue.value.active else 0;
    var minutes := if lastReceived.Some? then (now - lastReceived.value) as real / 60000.0 else 0.0;
    var e1 := MetricAlert("warning", "high_error_rate", errorRate, 1.0);
    var e2 := MetricAlert("warning", "high_latency", p95, 500.0);
    var e3 := MetricAlert("warning", "queue_full", queued as real, 40.0);
    var e4 := MetricAlert("error", "high_failure_rate", failureRate, 5.0);
    var e5 := MetricAlert("error", "no_recent_readings", minutes, 5.0);
    var c1, c2, c3 := errorRate > 1.0, p95 > 500.0, queue.Some? && queued > 40;
    var c4, c5 := failureRate > 5.0, lastReceived.Some? && minutes > 5.0;
    AlertsForFacts(c1, c2, c3, c4, c5, e1, e2, e3, e4, e5);
    When(c1, e1) + When(c2, e2) + When(c3, e3) + When(c4, e4) + When(c5, e5)
  }

  lemma AlertsForFacts(c1: bool, c2: bool, c3: bool, c4: bool, c5: bool,
                       e1: MetricAlert, e2: MetricAlert, e3: MetricAlert, e4: MetricAlert, e5: MetricAlert)
    requires e1.alertType == "high_error_rate" && e2.alertType == "high_latency" && e3.alertType == "queue_full"
    requires e4.alertType == "high_failure_rate" && e5.alertType == "no_recent_readings"
    ensures var r := When(c1, e1) + When(c2, e2) + When(c3, e3) + When(c4, e4) + When(c5, e5);
      |r| <= 5 &&
      (HasAlert(r, e1.alertType) <==> c1) && (HasAlert(r, e2.alertType) <==> c2) &&
      (HasAlert(r, e3.alertType) <==> c3) && (HasAlert(r, e4.alertType) <==> c4) &&
      (HasAlert(r, e5.alertType) <==> c5)
  {
    var es := [e1, e2, e3, e4, e5];
    var cs := [c1, c2, c3, c4, c5];
    forall k | 0 <= k < 5
      ensures HasAlert(When(c1, e1) + When(c2, e2) + When(c3, e3) + When(c4, e4) + When(c5, e5), es[k].alertType) <==> cs[k]
    {
      var t := es[k].alertType;
      HasAlertOfFive(When(c1, e1), When(c2, e2), When(c3, e3), When(c4, e4), When(c5, e5), t);
      HasAlertWhen(c1, e1, t);
      HasAlertWhen(c2, e2, t);
      HasAlertWhen(c3, e3, t);
      HasAlertWhen(c4, e4, t);
      HasAlertWhen(c5, e5, t);
    }
    assert es[0] == e1 && es[1] == e2 && es[2] == e3 && es[3] == e4 && es[4] == e5;
  }

  /** The record of an endpoint, a fresh one with no requests when it is unknown. */
  function DataOf(endpoints: map<string, EndpointData>, key: string): EndpointData
  {
    if key in endpoints then endpoints[key] else EndpointData(0, 0, [])
  }

  /**
   * One request on an endpoint: one more request, one more error iff the
   * status is 400 or more, and the latency appended unless it is 0 or
   * missing, keeping the newest 100.
   */
  function Bump(before: EndpointData, statusCode: int, latency: Option<real>): (e: EndpointData)
    requires |before.latencies| <= MAX_ENDPOINT_LATENCIES
    ensures e.count == before.count + 1
    ensures e.errors == before.errors + (if statusCode >= 400 then 1 else 0)
    ensures var lats := if latency.Some? && latency.value != 0.0 then before.latencies + [latency.value] else before.latencies;
      |e.latencies| == (if |lats| <= MAX_ENDPOINT_LATENCIES then |lats| else MAX_ENDPOINT_LATENCIES) &&
      forall i :: 0 <= i < |e.latencies| ==> e.latencies[i] == lats[|lats| - |e.latencies| + i]
  {
    var e := before.(count := before.count + 1);
    var e := if statusCode >= 400 then e.(errors := e.errors + 1) else e;
    if latency.Some? && latency.value != 0.0 then
      var lats := e.latencies + [latency.value];
      e.(latencies := if |lats| > MAX_ENDPOINT_LATENCIES then lats[1..] else lats)
    else e
  }

  /**
   * Every endpoint was requested, has no more errors than requests and at
   * most 100 latencies; the order lists each endpoint once.
   */
  ghost predicate EndpointsValid(endpoints: map<string, EndpointData>, order: seq<string>)
  {
    (forall k :: k in endpoints ==>
      |endpoints[k].latencies| <= MAX_ENDPOINT_LATENCIES && 1 <= endpoints[k].count &&
      endpoints[k].errors <= endpoints[k].count) &&
    (forall i :: 0 <= i < |order| ==> order[i] in endpoints) &&
    |order| == |endpoints| &&
    (forall i, j :: 0 <= i < j < |order| ==> order[i] != order[j])
  }

  /** One request keeps the endpoint records valid. */
  lemma EndpointsValidStep(endpoints: map<string, EndpointData>, order: seq<string>, key: string,
                           statusCode: int, latency: Option<real>)
    requires EndpointsValid(endpoints, order)
    ensures EndpointsValid(endpoints[key := Bump(DataOf(endpoints, key), statusCode, latency)],
                           order + (if key in endpoints then [] else [key]))
  {
    if key !in endpoints {
      assert forall i :: 0 <= i < |order| ==> order[i] != key;
    }
  }

  class MetricsService {
    var totalReceived: nat
    var totalProcessed: nat
    var totalFailed: nat
    var lastReceived: Option<int>
    var lastProcessed: Option<int>
    var samples: seq<real>
    var endpoints: map<string, EndpointData>
    /** The endpoint keys in insertion order, the iteration order of the Map. */
    var endpointOrder: seq<string>
    var errorsTotal: nat
    var errorsByType: map<string, nat>
    var lastError: Option<ErrorRecord>

    /** The buffers stay within their caps; every endpoint was requested and has no more errors than requests. */
    ghost predicate Valid()
      reads this`samples, this`endpoints, this`endpointOrder
    {
      |samples| <= MAX_SAMPLES && EndpointsValid(endpoints, endpointOrder)
    }

    /** The empty initial state, also the state `reset` restores. */
    ghost predicate Empty()
      reads this
    {
      totalReceived == 0 && totalProcessed == 0 && totalFailed == 0 &&
      lastReceived.None? && lastProcessed.None? && samples == [] &&
      endpoints == map[] && endpointOrder == [] &&
      errorsTotal == 0 && errorsByType == map[] && lastError.None?
    }

    constructor ()
      ensures Valid() && Empty()
    {
      totalReceived, totalProcessed, totalFailed := 0, 0, 0;
      lastReceived, lastProcessed := None, None;
      samples := [];
      endpoints, endpointOrder := map[], [];
      errorsTotal, errorsByType, lastError := 0, map[], None;
    }

    method RecordTelemetryReceived(now: int)
      modifies this`totalReceived, this`lastReceived
      ensures totalReceived == old(totalReceived) + 1 && lastReceived == Some(now)
    {
      totalReceived := totalReceived + 1;
      lastReceived := Some(now);
    }

    method RecordTelemetryProcessed(now: int)
      modifies this`totalProcessed, this`lastProcessed
      ensures totalProcessed == old(totalProcessed) + 1 && lastProcessed == Some(now)
    {
      totalProcessed := totalProcessed + 1;
      lastProcessed := Some(now);
    }

    method RecordTelemetryFailed()
      modifies this`totalFailed
      ensures totalFailed == old(totalFailed) + 1
    {
      totalFailed := totalFailed + 1;
    }

    /** recordLatency: the newest 1000 samples are kept, the oldest dropped first. */
    method RecordLatency(ms: real)
      requires Valid()
      modifies this`samples
      ensures Valid()
      ensures |samples| == if |old(samples)| < MAX_SAMPLES then |old(samples)| + 1 else MAX_SAMPLES
      ensures forall i :: 0 <= i < |samples| ==> samples[i] == (old(samples) + [ms])[|old(samples)| + 1 - |samples| + i]
    {
      samples := samples + [ms];
      if |samples| > MAX_SAMPLES {
        samples := samples[1..];
      }
    }

    /**
     * recordEndpointRequest: the endpoint `method path` is created on its
     * first request, then updated as `Bump` says.
     */
    method RecordEndpointRequest(httpMethod: string, path: string, statusCode: int, latency: Option<real>)
      requires Valid()
      modifies this`endpoints, this`endpointOrder
      ensures Valid()
      ensures var key := httpMethod + " " + path;
        endpoints == old(endpoints)[key := Bump(DataOf(old(endpoints), key), statusCode, latency)] &&
        endpointOrder == old(endpointOrder) + (if key in old(endpoints) then [] else [key])
    {
      var key := httpMethod + " " + path;
      EndpointsValidStep(endpoints, endpointOrder, key, statusCode, latency);
      var e := Bump(DataOf(endpoints, key), statusCode, latency);
      if key !in endpoints {
        endpointOrder := endpointOrder + [key];
      }
      endpoints := endpoints[key := e];
    }

    /** recordError: one more error in total and for its type; it becomes the last error. */
    method RecordError(errorType: string, message: string, now: int)
      modifies this`errorsTotal, this`errorsByType, this`lastError
      ensures errorsTotal == old(errorsTotal) + 1
      ensures errorsByType == old(errorsByType)[errorType :=
        (if errorType in old(errorsByType) then old(errorsByType)[errorType] else 0) + 1]
      ensures lastError == Some(ErrorRecord(errorType, message, now))
    {
      errorsTotal := errorsTotal + 1;
      if errorType !in errorsByType {
        errorsByType := errorsByType[errorType := 0];
      }
      errorsByType := errorsByType[errorType := errorsByType[errorType] + 1];
      lastError := Some(ErrorRecord(errorType, message, now));
    }

    /**
     * getEndpointStats: one entry per endpoint, most requested first, each
     * with its error percentage in [0, 100].
     */
    function GetEndpointStats(): (r: seq<EndpointStat>)
      requires Valid()
      reads this
      ensures |r| == |endpoints|
      ensures forall k :: k in endpoints ==> exists i :: 0 <= i < |r| && r[i].endpoint == k
      ensures Sorting.SortedBy(r, MoreRequests)
      ensures multiset(r) == multiset(UnsortedStats(endpointOrder, endpoints))
      ensures forall i :: 0 <= i < |r| ==>
        r[i].endpoint in endpoints && r[i] == StatOf(r[i].endpoint, endpoints[r[i].endpoint]) &&
        0.0 <= r[i].errorRate <= 100.0
    {
      var u := UnsortedStats(endpointOrder, endpoints);
      var r := Sorting.SortBy(u, MoreRequests);
      MoreRequestsTotalPreorder();
      Sorting.SortBySorted(u, MoreRequests);
      EndpointStatsFacts(u, r);
      EndpointsCovered(u, r);
      r
    }

    /** The order lists every endpoint: it has no repeats and as many entries as the map. */
    lemma OrderCoversKeys()
      requires Valid()
      ensures forall k :: k in endpoints ==> k in endpointOrder
    {
      var s := set k | k in endpointOrder;
      DistinctSize(endpointOrder);
      SubsetSameSize(s, endpoints.Keys);
    }

    lemma EndpointsCovered(u: seq<EndpointStat>, r: seq<EndpointStat>)
      requires Valid() && u == UnsortedStats(endpointOrder, endpoints) && multiset(r) == multiset(u)
      ensures forall k :: k in endpoints ==> exists i :: 0 <= i < |r| && r[i].endpoint == k
    {
      OrderCoversKeys();
      forall k | k in endpoints
        ensures exists i :: 0 <= i < |r| && r[i].endpoint == k
      {
        var j :| 0 <= j < |endpointOrder| && endpointOrder[j] == k;
        assert u[j] in multiset(r);
        var i :| 0 <= i < |r| && r[i] == u[j];
      }
    }

    lemma EndpointStatsFacts(u: seq<EndpointStat>, r: seq<EndpointStat>)
      requires Valid() && u == UnsortedStats(endpointOrder, endpoints) && multiset(r) == multiset(u)
      ensures forall i :: 0 <= i < |r| ==>
        r[i].endpoint in endpoints && r[i] == StatOf(r[i].endpoint, endpoints[r[i].endpoint]) &&
        0.0 <= r[i].errorRate <= 100.0
    {
      forall i | 0 <= i < |r|
        ensures r[i].endpoint in endpoints && r[i] == StatOf(r[i].endpoint, endpoints[r[i].endpoint]) &&
          0.0 <= r[i].errorRate <= 100.0
      {
        assert r[i] in multiset(u);
        var j :| 0 <= j < |u| && u[j] == r[i];
        assert endpointOrder[j] in endpoints;
      }
    }

    /** The overall error rate of getMetrics: all endpoints' errors over all their requests. */
    function OverallErrorRate(): real
      reads this
      requires forall i :: 0 <= i < |endpointOrder| ==> endpointOrder[i] in endpoints
    {
      var stats := UnsortedStats(endpointOrder, endpoints);
      ErrorRate(TotalErrors(stats), TotalRequests(stats))
    }

    /** checkAlerts with the queue statistics (None when they could not be read) and the time given. */
    function CheckAlerts(queue: Option<QueueStats>, now: int): (r: seq<MetricAlert>)
      requires Valid()
      reads this
      ensures |r| <= 5
      ensures HasAlert(r, "high_error_rate") <==> OverallErrorRate() > 1.0
      ensures HasAlert(r, "high_latency") <==> CalculatePercentiles(samples).p95 > 500.0
      ensures HasAlert(r, "queue_full") <==> queue.Some? && queue.value.waiting + queue.value.active > 40
      ensures HasAlert(r, "high_failure_rate") <==>
        totalReceived > 0 && totalFailed as real / totalReceived as real * 100.0 > 5.0
      ensures HasAlert(r, "no_recent_readings") <==>
        lastReceived.Some? && (now - lastReceived.value) as real / 60000.0 > 5.0
    {
      AlertsFor(OverallErrorRate(), CalculatePercentiles(samples).p95, queue,
        totalReceived, totalFailed, lastReceived, now)
    }

    /** reset: every counter, map and buffer back to the initial empty state. */
    method Reset()
      modifies this
      ensures Valid() && Empty()
    {
      totalReceived, totalProcessed, totalFailed := 0, 0, 0;
      lastReceived, lastProcessed := None, None;
      samples := [];
      endpoints, endpointOrder := map[], [];
      errorsTotal, errorsByType, lastError := 0, map[], None;
    }
  }

  function TotalRequests(stats: seq<EndpointStat>): nat
  {
    if stats == [] then 0 else stats[0].requests + TotalRequests(stats[1..])
  }

  function TotalErrors(stats: seq<EndpointStat>): nat
  {
    if stats == [] then 0 else stats[0].errors + TotalErrors(stats[1..])
  }

  /** A subset as large as its superset is the superset. */
  lemma SubsetSameSize<T>(a: set<T>, b: set<T>)
    requires a <= b && |a| == |b|
    ensures a == b
  {
    if a != b {
      assert !(b <= a);
      var x :| x in b && x !in a;
      assert a <= b - {x};
      SubsetSize(a, b - {x});
    }
  }

  lemma {:induction false} SubsetSize<T>(a: set<T>, b: set<T>)
    requires a <= b
    ensures |a| <= |b|
    decreases b
  {
    if a != {} {
      var x :| x in a;
      SubsetSize(a - {x}, b - {x});
    }
  }

  /** A sequence without repeats has as many elements as its set. */
  lemma {:induction false} DistinctSize<T>(s: seq<T>)
    requires forall i, j :: 0 <= i < j < |s| ==> s[i] != s[j]
    ensures |set x | x in s| == |s|
  {
    if s != [] {
      DistinctSize(s[1..]);
      assert (set x | x in s) == (set x | x in s[1..]) + {s[0]};
      assert s[0] !in s[1..];
    }
  }
}
