/**
 * The alert notifier: each check turns the metrics alerts into notified
 * records, unless one of the same type was notified in the last five
 * minutes, and keeps a history of at most 100 records, newest first when
 * trimmed.
 */
module Alerts {
  import opened Wrappers
  import Sorting
  import Metrics

  /** Alerts of one type are not notified again within this many milliseconds. */
  const SUPPRESSION_MS := 5 * 60 * 1000
  const MAX_HISTORY := 100
  const DEFAULT_HISTORY_LIMIT := 50
  const DAY_MS := 24 * 60 * 60 * 1000

  /** A notified alert: the alert itself, its notification time and the `notified` flag. */
  datatype AlertRecord = AlertRecord(alert: Metrics.MetricAlert, timestamp: int, notified: bool)

  /** Some record of this type in `history` is less than five minutes old at `now`. */
  predicate Recent(history: seq<AlertRecord>, alertType: string, now: int)
  {
    exists i :: 0 <= i < |history| && history[i].alert.alertType == alertType &&
      now - history[i].timestamp < SUPPRESSION_MS
  }

  /** notifyAlert: the record appended to the history. */
  function Notified(alert: Metrics.MetricAlert, now: int): AlertRecord
  {
    AlertRecord(alert, now, true)
  }

  /** One turn of checkAndNotify's loop: notify unless a recent record has the same type. */
  function Step(history: seq<AlertRecord>, alert: Metrics.MetricAlert, now: int): seq<AlertRecord>
  {
    if Recent(history, alert.alertType, now) then history else history + [Notified(alert, now)]
  }

  /**
   * checkAndNotify's loop over the alerts, in order, each turn seeing the
   * records the earlier turns appended: the history only grows at its end,
   * by at most one record per alert, each notified now, of a type with no
   * recent record before the call, no two of one type; afterwards every
   * alert's type has a recent record.
   */
  function NotifyAll(history: seq<AlertRecord>, alerts: seq<Metrics.MetricAlert>, now: int)
    : (r: seq<AlertRecord>)
    ensures |history| <= |r| <= |history| + |alerts| && r[..|history|] == history
    ensures forall i :: |history| <= i < |r| ==>
      r[i] == Notified(r[i].alert, now) && !Recent(history, r[i].alert.alertType, now)
    ensures forall i, j :: |history| <= i < j < |r| ==> r[i].alert.alertType != r[j].alert.alertType
    ensures forall k :: 0 <= k < |alerts| ==> Recent(r, alerts[k].alertType, now)
    ensures forall i :: |history| <= i < |r| ==> r[i].alert in alerts
    decreases |alerts|
  {
    if alerts == [] then history
    else
      var h := Step(history, alerts[0], now);
      var r := NotifyAll(h, alerts[1..], now);
      NotifyAllFacts(history, alerts, now, h, r);
      r
  }

  /** The step from NotifyAll's recursive call to its own contract. */
  lemma NotifyAllFacts(history: seq<AlertRecord>, alerts: seq<Metrics.MetricAlert>, now: int,
                       h: seq<AlertRecord>, r: seq<AlertRecord>)
    requires alerts != [] && h == Step(history, alerts[0], now)
    requires |h| <= |r| <= |h| + |alerts| - 1 && r[..|h|] == h
    requires forall i :: |h| <= i < |r| ==> r[i] == Notified(r[i].alert, now) && !Recent(h, r[i].alert.alertType, now)
    requires forall i, j :: |h| <= i < j < |r| ==> r[i].alert.alertType != r[j].alert.alertType
    requires forall k :: 0 <= k < |alerts| - 1 ==> Recent(r, alerts[1..][k].alertType, now)
    requires forall i :: |h| <= i < |r| ==> r[i].alert in alerts[1..]
    ensures |history| <= |r| <= |history| + |alerts| && r[..|history|] == history
    ensures forall i :: |history| <= i < |r| ==>
      r[i] == Notified(r[i].alert, now) && !Recent(history, r[i].alert.alertType, now)
    ensures forall i, j :: |history| <= i < j < |r| ==> r[i].alert.alertType != r[j].alert.alertType
    ensures forall k :: 0 <= k < |alerts| ==> Recent(r, alerts[k].alertType, now)
    ensures forall i :: |history| <= i < |r| ==> r[i].alert in alerts
  {
    assert h[..|history|] == history;
    forall i | |history| <= i < |r|
      ensures r[i].alert in alerts
    {
      if i < |h| {
        assert r[i] == h[i] == Notified(alerts[0], now);
      } else {
        assert r[i].alert in alerts[1..];
      }
    }
    assert r[..|history|] == history;
    forall i | |h| <= i < |r|
      ensures !Recent(history, r[i].alert.alertType, now)
    {
      RecentPrefix(history, h, r[i].alert.alertType, now);
    }
    if |h| > |history| {
      var t := alerts[0].alertType;
      assert r[|history|] == h[|history|] == Notified(alerts[0], now);
      forall j | |h| <= j < |r|
        ensures r[j].alert.alertType != t
      {
        assert Recent(h, t, now) by {
          assert h[|history|].alert.alertType == t;
        }
      }
    }
    assert Recent(r, alerts[0].alertType, now) by {
      var t := alerts[0].alertType;
      if Recent(history, t, now) {
        var i :| 0 <= i < |history| && history[i].alert.alertType == t && now - history[i].timestamp < SUPPRESSION_MS;
        assert r[i] == history[i];
      } else {
        assert r[|history|] == h[|history|];
      }
    }
    forall k | 1 <= k < |alerts|
      ensures Recent(r, alerts[k].alertType, now)
    {
      assert alerts[1..][k - 1] == alerts[k];
    }
  }

  /** A record found in a prefix is found in the whole history. */
  lemma RecentPrefix(history: seq<AlertRecord>, longer: seq<AlertRecord>, alertType: string, now: int)
    requires |history| <= |longer| && longer[..|history|] == history
    ensures Recent(history, alertType, now) ==> Recent(longer, alertType, now)
  {
    if Recent(history, alertType, now) {
      var i :| 0 <= i < |history| && history[i].alert.alertType == alertType &&
        now - history[i].timestamp < SUPPRESSION_MS;
      assert longer[i] == history[i];
    }
  }

  /** Newest first: the order of `sort((a, b) => b.timestamp - a.timestamp)`. */
  predicate Newer(a: AlertRecord, b: AlertRecord)
  {
    a.timestamp >= b.timestamp
  }

  lemma NewerTotalPreorder()
    ensures Sorting.TotalPreorder(Newer)
  {
  }

  /** cleanHistory: beyond 100 records, the newest 100. */
  function Clean(history: seq<AlertRecord>): (r: seq<AlertRecord>)
    ensures |r| == if |history| > MAX_HISTORY then MAX_HISTORY else |history|
    ensures |history| <= MAX_HISTORY ==> r == history
    ensures forall x :: x in r ==> x in history
  {
    if |history| > MAX_HISTORY then
      var sorted := Sorting.SortBy(history, Newer);
      assert forall x :: x in sorted[..MAX_HISTORY] ==> x in multiset(sorted);
      sorted[..MAX_HISTORY]
    else history
  }

  /**
   * A trimmed history has exactly 100 records, drawn from the history, and
   * none of the dropped records is newer than a kept one.
   */
  lemma CleanKeepsNewest(history: seq<AlertRecord>)
    ensures |Clean(history)| <= MAX_HISTORY
    ensures multiset(Clean(history)) <= multiset(history)
    ensures |history| <= MAX_HISTORY ==> Clean(history) == history
    ensures |history| > MAX_HISTORY ==> |Clean(history)| == MAX_HISTORY
    ensures forall x, y :: x in multiset(Clean(history)) && y in multiset(history) - multiset(Clean(history)) ==>
      x.timestamp >= y.timestamp
  {
    if |history| > MAX_HISTORY {
      var s := Sorting.SortBy(history, Newer);
      NewerTotalPreorder();
      Sorting.SortBySorted(history, Newer);
      assert s == s[..MAX_HISTORY] + s[MAX_HISTORY..];
      assert multiset(history) - multiset(s[..MAX_HISTORY]) == multiset(s[MAX_HISTORY..]);
      SortedSplit(s, MAX_HISTORY);
    }
  }

  /** In a newest-first sequence nothing after position n is newer than anything before it. */
  lemma SortedSplit(s: seq<AlertRecord>, n: nat)
    requires Sorting.SortedBy(s, Newer) && n <= |s|
    ensures forall x, y :: x in multiset(s[..n]) && y in multiset(s[n..]) ==> x.timestamp >= y.timestamp
  {
    forall x, y | x in multiset(s[..n]) && y in multiset(s[n..])
      ensures x.timestamp >= y.timestamp
    {
      assert x in s[..n] && y in s[n..];
      var i :| 0 <= i < n && s[..n][i] == x;
      var j :| 0 <= j < |s| - n && s[n..][j] == y;
      assert Newer(s[i], s[n + j]);
    }
  }

  /** `slice(0, limit)`: a negative limit counts from the end. */
  function SliceEnd(limit: int, len: nat): (e: nat)
    ensures e <= len
    ensures limit >= 0 ==> e == if limit < len then limit else len
    ensures limit < 0 ==> e == if len + limit > 0 then len + limit else 0
  {
    if limit >= 0 then (if limit < len then limit else len)
    else if len + limit > 0 then len + limit else 0
  }

  /** Records less than a day old at `now`. */
  function Last24h(history: seq<AlertRecord>, now: int): (r: seq<AlertRecord>)
    ensures |r| <= |history|
    ensures forall x :: x in r <==> x in history && now - x.timestamp < DAY_MS
  {
    if history == [] then []
    else
      var rest := Last24h(history[1..], now);
      assert forall x :: x in history <==> x == history[0] || x in history[1..];
      if now - history[0].timestamp < DAY_MS then [history[0]] + rest else rest
  }

  /** The number of records in `s` whose level is `level`. */
  function CountLevel(s: seq<AlertRecord>, level: string): (n: nat)
    ensures n <= |s|
  {
    if s == [] then 0 else (if s[0].alert.level == level then 1 else 0) + CountLevel(s[1..], level)
  }

  /** The number of records in `s` whose type is `alertType`. */
  function CountType(s: seq<AlertRecord>, alertType: string): (n: nat)
    ensures n <= |s|
    ensures n > 0 <==> exists x :: x in s && x.alert.alertType == alertType
  {
    if s == [] then 0
    else
      assert forall x :: x in s <==> x == s[0] || x in s[1..];
      (if s[0].alert.alertType == alertType then 1 else 0) + CountType(s[1..], alertType)
  }

  lemma CountTypeAppend(s: seq<AlertRecord>, x: AlertRecord, alertType: string)
    ensures CountType(s + [x], alertType) == CountType(s, alertType) + (if x.alert.alertType == alertType then 1 else 0)
  {
    if s != [] {
      assert (s + [x])[1..] == s[1..] + [x];
      CountTypeAppend(s[1..], x, alertType);
    }
  }

  lemma CountTypePrefix(s: seq<AlertRecord>, i: nat)
    requires i < |s|
    ensures forall u :: CountType(s[..i + 1], u) == CountType(s[..i], u) + (if s[i].alert.alertType == u then 1 else 0)
  {
    assert s[..i + 1] == s[..i] + [s[i]];
    forall u
      ensures CountType(s[..i + 1], u) == CountType(s[..i], u) + (if s[i].alert.alertType == u then 1 else 0)
    {
      CountTypeAppend(s[..i], s[i], u);
    }
  }

  /** One record counted into the per-type tally of a day's first `i` records. */
  function CountStep(day: seq<AlertRecord>, i: nat, byType: map<string, nat>): (r: map<string, nat>)
    requires i < |day|
    requires forall t :: t in byType <==> CountType(day[..i], t) > 0
    requires forall t :: t in byType ==> byType[t] == CountType(day[..i], t)
    ensures forall t :: t in r <==> CountType(day[..i + 1], t) > 0
    ensures forall t :: t in r ==> r[t] == CountType(day[..i + 1], t)
  {
    CountTypePrefix(day, i);
    var t := day[i].alert.alertType;
    byType[t := if t in byType then byType[t] + 1 else 1]
  }

  /** With two levels in use, errors and warnings together are at most the day's records. */
  lemma {:induction false} LevelsWithinDay(s: seq<AlertRecord>)
    ensures CountLevel(s, "error") + CountLevel(s, "warning") <= |s|
  {
    if s != [] {
      LevelsWithinDay(s[1..]);
    }
  }

  datatype Stats = Stats(total: nat, last24h: nat, errors: nat, warnings: nat,
                         byType: map<string, nat>, lastCheck: Option<int>)

  class AlertService {
    var history: seq<AlertRecord>
    var lastCheck: Option<int>

    constructor ()
      ensures history == [] && lastCheck.None?
    {
      history := [];
      lastCheck := None;
    }

    /** notifyAlert: exactly one record is appended, notified now. */
    method NotifyAlert(alert: Metrics.MetricAlert, now: int)
      modifies this`history
      ensures history == old(history) + [Notified(alert, now)]
    {
      history := history + [AlertRecord(alert, now, true)];
    }

    /** cleanHistory: the newest 100 records are kept (CleanKeepsNewest). */
    method CleanHistory()
      modifies this`history
      ensures history == Clean(old(history))
    {
      if |history| > MAX_HISTORY {
        history := Sorting.SortBy(history, Newer)[..MAX_HISTORY];
      }
    }

    /**
     * checkAndNotify, given the current alerts and time: each alert is
     * notified unless a record of its type is less than five minutes old,
     * then the history is trimmed.
     */
    method CheckAndNotify(alerts: seq<Metrics.MetricAlert>, now: int)
      modifies this`history, this`lastCheck
      ensures lastCheck == Some(now)
      ensures history == Clean(NotifyAll(old(history), alerts, now))
    {
      lastCheck := Some(now);
      var i := 0;
      while i < |alerts|
        invariant 0 <= i <= |alerts|
        invariant NotifyAll(history, alerts[i..], now) == NotifyAll(old(history), alerts, now)
        invariant lastCheck == Some(now)
      {
        assert alerts[i..][1..] == alerts[i + 1..];
        var alert := alerts[i];
        var recent := RecentIn(alert.alertType, now);
        if !recent {
          NotifyAlert(alert, now);
        }
        i := i + 1;
      }
      CleanHistory();
    }

    /** `alertHistory.find(...)`: a linear search for a recent record of the type. */
    method RecentIn(alertType: string, now: int) returns (found: bool)
      ensures found <==> Recent(history, alertType, now)
    {
      var i := 0;
      while i < |history|
        invariant 0 <= i <= |history|
        invariant forall j :: 0 <= j < i ==> !(history[j].alert.alertType == alertType && now - history[j].timestamp < SUPPRESSION_MS)
      {
        if history[i].alert.alertType == alertType && now - history[i].timestamp < SUPPRESSION_MS {
          return true;
        }
        i := i + 1;
      }
      return false;
    }

    /**
     * getHistory: the stored history is sorted newest first in place, and
     * its first `limit` records (50 when none is given) are returned.
     */
    method GetHistory(limit: Option<int>) returns (r: seq<AlertRecord>)
      modifies this`history
      ensures history == Sorting.SortBy(old(history), Newer)
      ensures r == history[..SliceEnd(limit.UnwrapOr(DEFAULT_HISTORY_LIMIT), |history|)]
      ensures |r| <= |old(history)| && (limit.UnwrapOr(DEFAULT_HISTORY_LIMIT) >= 0 ==> |r| <= limit.UnwrapOr(DEFAULT_HISTORY_LIMIT))
      ensures multiset(history) == multiset(old(history)) && Sorting.SortedBy(r, Newer)
    {
      history := Sorting.SortBy(history, Newer);
      NewerTotalPreorder();
      Sorting.SortBySorted(old(history), Newer);
      r := history[..SliceEnd(limit.UnwrapOr(DEFAULT_HISTORY_LIMIT), |history|)];
    }

    /**
     * getStats: the total, and over the records of the last 24 hours their
     * number, the error and warning counts and the count per type.
     */
    method GetStats(now: int) returns (st: Stats)
      ensures st.total == |history| && st.lastCheck == lastCheck
      ensures var day := Last24h(history, now);
        st.last24h == |day| && st.errors == CountLevel(day, "error") && st.warnings == CountLevel(day, "warning") &&
        st.errors + st.warnings <= st.last24h &&
        (forall t :: t in st.byType <==> exists x :: x in day && x.alert.alertType == t) &&
        (forall t :: t in st.byType ==> st.byType[t] == CountType(day, t))
    {
      var day := Last24h(history, now);
      var byType: map<string, nat> := map[];
      var i := 0;
      while i < |day|
        invariant 0 <= i <= |day|
        invariant forall t :: t in byType <==> CountType(day[..i], t) > 0
        invariant forall t :: t in byType ==> byType[t] == CountType(day[..i], t)
      {
        byType := CountStep(day, i, byType);
        i := i + 1;
      }
      assert day[..|day|] == day;
      LevelsWithinDay(day);
      st := Stats(|history|, |day|, CountLevel(day, "error"), CountLevel(day, "warning"), byType, lastCheck);
    }
  }
}
