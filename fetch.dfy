/**
 * Incident fetching of the Grafana integration: the start of the fetch
 * window, the sort of the fetched alerts, the watermark filter, the batch
 * cap and the advance of the watermark.
 *
 * A timestamp is a UTC instant in whole microseconds since the epoch, the
 * resolution of a Python `datetime`; dropping the microseconds of a
 * `datetime` is `TruncateToSecond`.
 */
module Fetch {
  import opened Wrappers

  const MICROS_PER_SECOND: int := 1000000
  /** The hard ceiling on the number of incidents of one fetch. */
  const MAX_INCIDENTS_TO_FETCH: int := 50
  /** The `type` given to every fetched alert and incident. */
  const GRAFANA_ALERT_TYPE: string := "Grafana Alert"

  type Timestamp = int

  /** `datetime.replace(microsecond=0)`: the start of the second holding `t`. */
  function TruncateToSecond(t: Timestamp): (r: Timestamp)
    ensures r % MICROS_PER_SECOND == 0
    ensures r <= t < r + MICROS_PER_SECOND
  {
    t - t % MICROS_PER_SECOND
  }

  /** Truncation keeps the order of timestamps. */
  lemma TruncateMonotone(t: Timestamp, u: Timestamp)
    requires t <= u
    ensures TruncateToSecond(t) <= TruncateToSecond(u)
  {
  }

  /**
   * `calculate_fetch_start_time`: the lookback instant `firstFetch` when no
   * fetch was stored, otherwise the later of the stored fetch and the
   * lookback instant; always on a whole second.
   */
  function CalculateFetchStartTime(lastFetch: Option<Timestamp>, firstFetch: Timestamp): (r: Timestamp)
    ensures r % MICROS_PER_SECOND == 0
    ensures r >= TruncateToSecond(firstFetch)
    ensures lastFetch.None? ==> r == TruncateToSecond(firstFetch)
    ensures lastFetch.Some? ==> r >= TruncateToSecond(lastFetch.value)
    ensures lastFetch.Some? ==> r == TruncateToSecond(lastFetch.value) || r == TruncateToSecond(firstFetch)
  {
    var firstFetchTime := TruncateToSecond(firstFetch);
    match lastFetch
    case None => firstFetchTime
    case Some(last) =>
      var lastFetchTime := TruncateToSecond(last);
      if lastFetchTime >= firstFetchTime then lastFetchTime else firstFetchTime
  }

  /**
   * The `max_fetch` parameter as `main` passes it on: missing, zero or above
   * the ceiling gives the ceiling; any other value, negative ones included,
   * is kept.
   */
  function ClampMaxFetch(maxFetch: Option<int>): (r: int)
    ensures r <= MAX_INCIDENTS_TO_FETCH && r != 0
    ensures r == MAX_INCIDENTS_TO_FETCH <==>
              (maxFetch.None? || maxFetch.value == 0 || maxFetch.value >= MAX_INCIDENTS_TO_FETCH)
    ensures r != MAX_INCIDENTS_TO_FETCH ==> maxFetch.Some? && r == maxFetch.value
  {
    if maxFetch.None? || maxFetch.value == 0 || maxFetch.value > MAX_INCIDENTS_TO_FETCH
    then MAX_INCIDENTS_TO_FETCH
    else maxFetch.value
  }

  /**
   * An alert record as returned by the server. Its name and state date are
   * only read; its `type` key is written when it becomes an incident; the
   * remaining keys, with their JSON-encoded values, are carried along.
   */
  class Alert {
    const name: string
    /** `newStateDate`, at full precision. */
    const newStateDate: Timestamp
    const extra: map<string, string>
    /** The alert's `type` key, if it has one. */
    var kind: Option<string>

    constructor (name: string, newStateDate: Timestamp, extra: map<string, string>, kind: Option<string>)
      ensures this.name == name && this.newStateDate == newStateDate
      ensures this.extra == extra && this.kind == kind
    {
      this.name := name;
      this.newStateDate := newStateDate;
      this.extra := extra;
      this.kind := kind;
    }
  }

  /** The JSON text of an alert (`json.dumps(alert)`), kept as its content. */
  datatype AlertJson = AlertJson(name: string, newStateDate: Timestamp, kind: Option<string>, extra: map<string, string>)

  /** An incident record handed to the platform. */
  datatype Incident = Incident(name: string, occurred: Timestamp, rawJson: AlertJson, kind: string)

  /** The JSON of `a` in its current state. */
  function Json(a: Alert): AlertJson
    reads a
  {
    AlertJson(a.name, a.newStateDate, a.kind, a.extra)
  }

  /** The incident made from `a`, whose `type` has been set. */
  function IncidentOf(a: Alert): Incident {
    Incident(a.name, a.newStateDate, AlertJson(a.name, a.newStateDate, Some(GRAFANA_ALERT_TYPE), a.extra), GRAFANA_ALERT_TYPE)
  }

  /** The incidents made from the alerts of `e`, in order. */
  function Incidents(e: seq<Alert>): seq<Incident> {
    if e == [] then [] else Incidents(e[..|e| - 1]) + [IncidentOf(e[|e| - 1])]
  }

  lemma {:induction false} IncidentsAt(e: seq<Alert>, k: int)
    requires 0 <= k < |e|
    ensures |Incidents(e)| == |e| && Incidents(e)[k] == IncidentOf(e[k])
  {
    var n := |e| - 1;
    IncidentsLength(e[..n]);
    if k < n {
      IncidentsAt(e[..n], k);
    }
  }

  lemma {:induction false} IncidentsLength(e: seq<Alert>)
    ensures |Incidents(e)| == |e|
  {
    if e != [] {
      IncidentsLength(e[..|e| - 1]);
    }
  }

  /** Ascending by full-precision `newStateDate`. */
  ghost predicate SortedByDate(s: seq<Alert>) {
    forall i, j :: 0 <= i < j < |s| ==> s[i].newStateDate <= s[j].newStateDate
  }

  /** The alert's state date, truncated to the second, is strictly after the watermark. */
  predicate IsNew(a: Alert, watermark: Timestamp) {
    TruncateToSecond(a.newStateDate) > watermark
  }

  /** The alerts of `s` that are new with respect to `watermark`, in order. */
  function Fresh(s: seq<Alert>, watermark: Timestamp): (r: seq<Alert>)
    ensures |r| <= |s|
    ensures forall i :: 0 <= i < |r| ==> r[i] in s && IsNew(r[i], watermark)
    ensures forall i :: 0 <= i < |s| && IsNew(s[i], watermark) ==> s[i] in r
  {
    if s == [] then []
    else
      var n := |s| - 1;
      var prev := Fresh(s[..n], watermark);
      assert forall i :: 0 <= i < n ==> s[..n][i] == s[i];
      if IsNew(s[n], watermark) then prev + [s[n]] else prev
  }

  /**
   * The alerts that `parse_alerts` turns into incidents when it walks the
   * sorted list `s`: an alert is taken when fewer than `maxFetch` have been
   * taken before it and it is new.
   */
  function Emitted(s: seq<Alert>, maxFetch: int, watermark: Timestamp): seq<Alert> {
    if s == [] then []
    else
      var n := |s| - 1;
      var prev := Emitted(s[..n], maxFetch, watermark);
      if |prev| < maxFetch && IsNew(s[n], watermark) then prev + [s[n]] else prev
  }

  /** The running high-water mark after the alerts of `e`. */
  function HighWater(watermark: Timestamp, e: seq<Alert>): Timestamp {
    if e == [] then watermark
    else
      var n := |e| - 1;
      var prev := HighWater(watermark, e[..n]);
      var date := TruncateToSecond(e[n].newStateDate);
      if date > prev then date else prev
  }

  /** The number of alerts one fetch can take at most. */
  function Cap(maxFetch: int, available: nat): (r: nat)
    ensures r <= available
    ensures maxFetch >= 0 ==> r <= maxFetch
    ensures maxFetch <= 0 ==> r == 0
    ensures maxFetch > 0 && r < available ==> r == maxFetch
  {
    if maxFetch <= 0 then 0 else if maxFetch < available then maxFetch else available
  }

  /** The emitted alerts are the first `maxFetch` new alerts, in order. */
  lemma {:induction false} EmittedIsCappedFresh(s: seq<Alert>, maxFetch: int, watermark: Timestamp)
    ensures var f := Fresh(s, watermark);
            Emitted(s, maxFetch, watermark) == f[..Cap(maxFetch, |f|)]
  {
    if s != [] {
      var n := |s| - 1;
      EmittedIsCappedFresh(s[..n], maxFetch, watermark);
      var f := Fresh(s[..n], watermark);
      var prev := Emitted(s[..n], maxFetch, watermark);
      if IsNew(s[n], watermark) {
        assert Fresh(s, watermark) == f + [s[n]];
        if |prev| < maxFetch {
          assert prev == f;
          assert (f + [s[n]])[..|f| + 1] == f + [s[n]];
        } else {
          assert (f + [s[n]])[..Cap(maxFetch, |f| + 1)] == f[..Cap(maxFetch, |f|)];
        }
      }
    }
  }

  /** At most `maxFetch` alerts are emitted, and none when `maxFetch` is not positive. */
  lemma {:induction false} EmittedBound(s: seq<Alert>, maxFetch: int, watermark: Timestamp)
    ensures |Emitted(s, maxFetch, watermark)| <= if maxFetch <= 0 then 0 else maxFetch
  {
    EmittedIsCappedFresh(s, maxFetch, watermark);
  }

  /** Exactly the new alerts are emitted: each emitted alert is a new alert of `s`, and an alert at or before the watermark never is. */
  lemma {:induction false} EmittedAreNew(s: seq<Alert>, maxFetch: int, watermark: Timestamp)
    ensures forall a :: a in Emitted(s, maxFetch, watermark) ==> a in s && IsNew(a, watermark)
  {
    EmittedIsCappedFresh(s, maxFetch, watermark);
    var f := Fresh(s, watermark);
    assert forall a :: a in f[..Cap(maxFetch, |f|)] ==> a in f;
  }

  /** Unless the cap was reached, every new alert is emitted. */
  lemma {:induction false} EmittedComplete(s: seq<Alert>, maxFetch: int, watermark: Timestamp)
    requires |Emitted(s, maxFetch, watermark)| < maxFetch
    ensures Emitted(s, maxFetch, watermark) == Fresh(s, watermark)
  {
    EmittedIsCappedFresh(s, maxFetch, watermark);
  }

  /** The new alerts of a sorted list are sorted. */
  lemma {:induction false} FreshSorted(s: seq<Alert>, watermark: Timestamp)
    requires SortedByDate(s)
    ensures SortedByDate(Fresh(s, watermark))
  {
    if s != [] {
      var n := |s| - 1;
      assert SortedByDate(s[..n]);
      FreshSorted(s[..n], watermark);
      var f := Fresh(s[..n], watermark);
      forall a | a in f ensures a.newStateDate <= s[n].newStateDate {
        var i :| 0 <= i < n && s[..n][i] == a;
      }
    }
  }

  /** Incidents come out in ascending `newStateDate` order when the alerts are sorted. */
  lemma {:induction false} EmittedSorted(s: seq<Alert>, maxFetch: int, watermark: Timestamp)
    requires SortedByDate(s)
    ensures SortedByDate(Emitted(s, maxFetch, watermark))
  {
    EmittedIsCappedFresh(s, maxFetch, watermark);
    FreshSorted(s, watermark);
  }

  /**
   * The high-water mark is the maximum of the watermark and the truncated
   * dates of the alerts: it is at least each of them and equal to one.
   */
  lemma {:induction false} HighWaterIsMax(watermark: Timestamp, e: seq<Alert>)
    ensures HighWater(watermark, e) >= watermark
    ensures forall a :: a in e ==> TruncateToSecond(a.newStateDate) <= HighWater(watermark, e)
    ensures HighWater(watermark, e) == watermark ||
            exists a :: a in e && HighWater(watermark, e) == TruncateToSecond(a.newStateDate)
  {
    if e != [] {
      var n := |e| - 1;
      HighWaterIsMax(watermark, e[..n]);
      assert forall a :: a in e <==> a in e[..n] || a == e[n];
    }
  }

  /** A watermark on a whole second stays on a whole second. */
  lemma {:induction false} HighWaterWholeSecond(watermark: Timestamp, e: seq<Alert>)
    requires watermark % MICROS_PER_SECOND == 0
    ensures HighWater(watermark, e) % MICROS_PER_SECOND == 0
  {
    HighWaterIsMax(watermark, e);
  }

  /**
   * A second fetch that starts from the returned watermark never emits an
   * alert of the first: whatever it fetches is in a later second than
   * everything the first fetch emitted.
   */
  lemma {:induction false} NoReemission(s: seq<Alert>, t: seq<Alert>, maxFetch: int, nextMaxFetch: int, watermark: Timestamp)
    ensures var first := Emitted(s, maxFetch, watermark);
            var second := Emitted(t, nextMaxFetch, HighWater(watermark, first));
            forall a, b :: a in first && b in second ==>
              TruncateToSecond(a.newStateDate) < TruncateToSecond(b.newStateDate) && a != b
  {
    var first := Emitted(s, maxFetch, watermark);
    HighWaterIsMax(watermark, first);
    EmittedAreNew(t, nextMaxFetch, HighWater(watermark, first));
  }

  /** Polling the same alerts again after a fetch that stayed below the cap emits nothing. */
  lemma {:induction false} RepollEmitsNothing(s: seq<Alert>, maxFetch: int, nextMaxFetch: int, watermark: Timestamp)
    requires |Emitted(s, maxFetch, watermark)| < maxFetch
    ensures Emitted(s, nextMaxFetch, HighWater(watermark, Emitted(s, maxFetch, watermark))) == []
  {
    var first := Emitted(s, maxFetch, watermark);
    var next := HighWater(watermark, first);
    EmittedComplete(s, maxFetch, watermark);
    HighWaterIsMax(watermark, first);
    EmittedAreNew(s, nextMaxFetch, next);
    var second := Emitted(s, nextMaxFetch, next);
    if second != [] {
      var b := second[0];
      assert b in s && IsNew(b, next);
      assert IsNew(b, watermark);
      assert false;
    }
  }

  /**
   * An alert left out by the cap is in the second of the new watermark or
   * later: one in a later second is new for the next fetch, one in the same
   * second never will be.
   */
  lemma {:induction false} CapDefersOrDrops(s: seq<Alert>, maxFetch: int, watermark: Timestamp, a: Alert)
    requires SortedByDate(s)
    requires a in s && IsNew(a, watermark) && a !in Emitted(s, maxFetch, watermark)
    ensures TruncateToSecond(a.newStateDate) >= HighWater(watermark, Emitted(s, maxFetch, watermark))
  {
    var f := Fresh(s, watermark);
    var e := Emitted(s, maxFetch, watermark);
    EmittedIsCappedFresh(s, maxFetch, watermark);
    FreshSorted(s, watermark);
    HighWaterIsMax(watermark, e);
    var p :| 0 <= p < |f| && f[p] == a;
    var c := Cap(maxFetch, |f|);
    assert p >= c;
    forall b | b in e ensures TruncateToSecond(b.newStateDate) <= TruncateToSecond(a.newStateDate) {
      var q :| 0 <= q < c && f[..c][q] == b;
      TruncateMonotone(b.newStateDate, a.newStateDate);
    }
  }

  /**
   * Two alerts in the same second, a cap of one: the first fetch emits the
   * first alert, and no later fetch emits the second.
   */
  lemma SameSecondBeyondCapIsDropped(a: Alert, b: Alert, nextMaxFetch: int)
    requires a.newStateDate == 5100000 && b.newStateDate == 5200000
    ensures Emitted([a, b], 1, 0) == [a]
    ensures HighWater(0, [a]) == 5000000
    ensures forall t: seq<Alert> :: b !in Emitted(t, nextMaxFetch, 5000000)
  {
    assert [a, b][..1] == [a];
    assert [a][..0] == [];
    assert IsNew(a, 0);
    assert Emitted([a], 1, 0) == [a];
    forall t: seq<Alert> ensures b !in Emitted(t, nextMaxFetch, 5000000) {
      EmittedAreNew(t, nextMaxFetch, 5000000);
    }
  }

  /**
   * The state of insertion sort while the alert that started at index `i`
   * sits at index `j`: the first `i + 1` alerts are in order except for the
   * one at `j`, which is in order with everything after it.
   */
  ghost predicate Inserting(s: seq<Alert>, i: int, j: int)
    requires 0 <= j <= i < |s|
  {
    && (forall p, q :: 0 <= p < q <= i && p != j && q != j ==> s[p].newStateDate <= s[q].newStateDate)
    && (0 < j < i ==> s[j - 1].newStateDate <= s[j + 1].newStateDate)
    && (forall q :: j < q <= i ==> s[j].newStateDate <= s[q].newStateDate)
  }

  lemma InsertStart(s: seq<Alert>, i: int)
    requires 0 <= i < |s| && SortedByDate(s[..i])
    ensures Inserting(s, i, i)
  {
    forall p, q | 0 <= p < q < i ensures s[p].newStateDate <= s[q].newStateDate {
      assert s[..i][p] == s[p] && s[..i][q] == s[q];
    }
  }

  lemma InsertStep(s: seq<Alert>, i: int, j: int)
    requires 0 < j <= i < |s| && Inserting(s, i, j)
    requires s[j - 1].newStateDate > s[j].newStateDate
    ensures Inserting(s[j - 1 := s[j]][j := s[j - 1]], i, j - 1)
  {
  }

  lemma InsertDone(s: seq<Alert>, i: int, j: int)
    requires 0 <= j <= i < |s| && Inserting(s, i, j)
    requires j == 0 || s[j - 1].newStateDate <= s[j].newStateDate
    ensures SortedByDate(s[..i + 1])
  {
    forall p, q | 0 <= p < q <= i ensures s[p].newStateDate <= s[q].newStateDate {
      if q == j && p < j - 1 {
        assert s[p].newStateDate <= s[j - 1].newStateDate;
      }
    }
  }

  lemma SwapPermutes(s: seq<Alert>, j: int)
    requires 0 < j < |s|
    ensures multiset(s[j - 1 := s[j]][j := s[j - 1]]) == multiset(s)
  {
  }

  /** Moves the alert at index `i` left until the first `i + 1` alerts are in order. */
  method InsertAt(alerts: array<Alert>, i: int)
    requires 0 <= i < alerts.Length && SortedByDate(alerts[..i])
    modifies alerts
    ensures SortedByDate(alerts[..i + 1])
    ensures multiset(alerts[..]) == multiset(old(alerts[..]))
  {
    var j := i;
    InsertStart(alerts[..], i);
    while j > 0 && alerts[j - 1].newStateDate > alerts[j].newStateDate
      invariant 0 <= j <= i
      invariant Inserting(alerts[..], i, j)
      invariant multiset(alerts[..]) == multiset(old(alerts[..]))
    {
      ghost var before := alerts[..];
      InsertStep(before, i, j);
      SwapPermutes(before, j);
      alerts[j - 1], alerts[j] := alerts[j], alerts[j - 1];
      assert alerts[..] == before[j - 1 := before[j]][j := before[j - 1]];
      j := j - 1;
    }
    InsertDone(alerts[..], i, j);
  }

  /** Insertion sort of the alerts by full-precision `newStateDate`, in place. */
  method SortByDate(alerts: array<Alert>)
    modifies alerts
    ensures SortedByDate(alerts[..])
    ensures multiset(alerts[..]) == multiset(old(alerts[..]))
  {
    var i := 0;
    while i < alerts.Length
      invariant 0 <= i <= alerts.Length
      invariant SortedByDate(alerts[..i])
      invariant multiset(alerts[..]) == multiset(old(alerts[..]))
    {
      InsertAt(alerts, i);
      i := i + 1;
    }
    assert alerts[..alerts.Length] == alerts[..];
  }

  /**
   * `parse_alert`: with a watermark, an alert whose truncated date
   * `newStateDate` is at or before it gives no incident; otherwise the
   * alert's `type` is set and its incident returned.
   */
  method ParseAlert(alert: Alert, newStateDate: Timestamp, lastFetch: Option<Timestamp>)
    returns (incident: Option<Incident>)
    modifies alert
    ensures incident.Some? <==> (lastFetch.None? || newStateDate > lastFetch.value)
    ensures incident.Some? ==> alert.kind == Some(GRAFANA_ALERT_TYPE) && incident.value == IncidentOf(alert)
    ensures incident.Some? ==> incident.value.name == alert.name && incident.value.occurred == alert.newStateDate
    ensures incident.Some? ==> incident.value.kind == GRAFANA_ALERT_TYPE && incident.value.rawJson == Json(alert)
    ensures incident.None? ==> alert.kind == old(alert.kind)
  {
    if lastFetch.Some? && newStateDate <= lastFetch.value {
      return None;
    }
    alert.kind := Some(GRAFANA_ALERT_TYPE);
    incident := Some(Incident(alert.name, alert.newStateDate, Json(alert), GRAFANA_ALERT_TYPE));
  }

  /** Once `maxFetch` alerts are taken, the rest of the list adds nothing. */
  lemma {:induction false} EmittedSaturated(s: seq<Alert>, i: int, maxFetch: int, watermark: Timestamp)
    requires 0 <= i <= |s|
    requires |Emitted(s[..i], maxFetch, watermark)| >= maxFetch
    ensures Emitted(s, maxFetch, watermark) == Emitted(s[..i], maxFetch, watermark)
  {
    if i < |s| {
      var n := |s| - 1;
      assert s[..n][..i] == s[..i];
      EmittedSaturated(s[..n], i, maxFetch, watermark);
    } else {
      assert s[..i] == s;
    }
  }

  /** One more step of the walk: what the alert at index `i` adds. */
  lemma EmittedStep(s: seq<Alert>, i: int, maxFetch: int, watermark: Timestamp)
    requires 0 <= i < |s|
    ensures var prev := Emitted(s[..i], maxFetch, watermark);
            Emitted(s[..i + 1], maxFetch, watermark) ==
              if |prev| < maxFetch && IsNew(s[i], watermark) then prev + [s[i]] else prev
  {
    assert s[..i + 1][..i] == s[..i];
  }

  /**
   * Every incident of a fetch comes from an alert after the watermark, and
   * the returned watermark is at or after each incident's second.
   */
  lemma {:induction false} IncidentsWithinWatermarks(s: seq<Alert>, maxFetch: int, watermark: Timestamp)
    ensures var e := Emitted(s, maxFetch, watermark);
            var incidents := Incidents(e);
            forall k :: 0 <= k < |incidents| ==>
              watermark < TruncateToSecond(incidents[k].occurred) <= HighWater(watermark, e)
  {
    var e := Emitted(s, maxFetch, watermark);
    EmittedAreNew(s, maxFetch, watermark);
    HighWaterIsMax(watermark, e);
    IncidentsLength(e);
    forall k | 0 <= k < |Incidents(e)|
      ensures watermark < TruncateToSecond(Incidents(e)[k].occurred) <= HighWater(watermark, e)
    {
      IncidentsAt(e, k);
      assert e[k] in e;
    }
  }

  /**
   * The loop of `parse_alerts` over the already sorted list: stops once
   * `maxFetch` incidents are made, turns every alert whose truncated date is
   * after `lastFetch` into an incident and keeps the running high-water mark.
   */
  method EmitNew(alerts: array<Alert>, maxFetch: int, lastFetch: Timestamp)
    returns (watermark: Timestamp, incidents: seq<Incident>)
    modifies set a | a in alerts[..]
    ensures incidents == Incidents(Emitted(alerts[..], maxFetch, lastFetch))
    ensures watermark == HighWater(lastFetch, Emitted(alerts[..], maxFetch, lastFetch))
    ensures forall a :: a in alerts[..] ==>
              a.kind == if a in Emitted(alerts[..], maxFetch, lastFetch) then Some(GRAFANA_ALERT_TYPE) else old(a.kind)
  {
    incidents := [];
    watermark := lastFetch;
    var count := 0;
    var i := 0;
    while i < alerts.Length
      invariant 0 <= i <= alerts.Length
      invariant count == |Emitted(alerts[..i], maxFetch, lastFetch)|
      invariant incidents == Incidents(Emitted(alerts[..i], maxFetch, lastFetch))
      invariant watermark == HighWater(lastFetch, Emitted(alerts[..i], maxFetch, lastFetch))
      invariant forall a :: a in alerts[..] ==>
                  a.kind == if a in Emitted(alerts[..i], maxFetch, lastFetch) then Some(GRAFANA_ALERT_TYPE) else old(a.kind)
    {
      if count >= maxFetch {
        EmittedSaturated(alerts[..], i, maxFetch, lastFetch);
        break;
      }
      ghost var prev := Emitted(alerts[..i], maxFetch, lastFetch);
      EmittedStep(alerts[..], i, maxFetch, lastFetch);
      var alert := alerts[i];
      var newStateDate := TruncateToSecond(alert.newStateDate);
      var incident := ParseAlert(alert, newStateDate, Some(lastFetch));
      if incident.Some? {
        incidents := incidents + [incident.value];
        count := count + 1;
        if newStateDate > watermark {
          watermark := newStateDate;
        }
        assert (prev + [alert])[..|prev|] == prev;
      }
      i := i + 1;
    }
    assert alerts[..alerts.Length] == alerts[..];
  }

  /**
   * `parse_alerts`: sorts `alerts` in place by full-precision date, then
   * walks them as `EmitNew` does, and returns the advanced watermark with
   * the incidents.
   */
  method ParseAlerts(alerts: array<Alert>, maxFetch: int, lastFetch: Timestamp)
    returns (watermark: Timestamp, incidents: seq<Incident>)
    modifies alerts, set a | a in alerts[..]
    ensures SortedByDate(alerts[..])
    ensures multiset(alerts[..]) == multiset(old(alerts[..]))
    ensures incidents == Incidents(Emitted(alerts[..], maxFetch, lastFetch))
    ensures watermark == HighWater(lastFetch, Emitted(alerts[..], maxFetch, lastFetch))
    ensures forall a :: a in old(alerts[..]) ==>
              a.kind == if a in Emitted(alerts[..], maxFetch, lastFetch) then Some(GRAFANA_ALERT_TYPE) else old(a.kind)
    ensures |incidents| <= if maxFetch <= 0 then 0 else maxFetch
    ensures watermark >= lastFetch
    ensures forall k :: 0 <= k < |incidents| ==>
              lastFetch < TruncateToSecond(incidents[k].occurred) <= watermark
  {
    SortByDate(alerts);
    ghost var s := alerts[..];
    assert forall a :: a in s <==> a in old(alerts[..]) by {
      assert forall a :: a in s <==> a in multiset(s);
      assert forall a :: a in old(alerts[..]) <==> a in multiset(old(alerts[..]));
    }
    watermark, incidents := EmitNew(alerts, maxFetch, lastFetch);
    ghost var e := Emitted(s, maxFetch, lastFetch);
    EmittedBound(s, maxFetch, lastFetch);
    IncidentsLength(e);
    HighWaterIsMax(lastFetch, e);
    IncidentsWithinWatermarks(s, maxFetch, lastFetch);
  }

  /**
   * One fetch cycle of `fetch_incidents`: the stored watermark (if any) and
   * the lookback instant give the start; the fetched alerts are parsed; the
   * new watermark is what gets stored for the next cycle.
   */
  method FetchIncidents(storedLastFetch: Option<Timestamp>, firstFetch: Timestamp, alerts: array<Alert>, maxFetch: int)
    returns (nextLastFetch: Timestamp, incidents: seq<Incident>)
    modifies alerts, set a | a in alerts[..]
    ensures SortedByDate(alerts[..])
    ensures multiset(alerts[..]) == multiset(old(alerts[..]))
    ensures var start := CalculateFetchStartTime(storedLastFetch, firstFetch);
            forall a :: a in old(alerts[..]) ==>
              a.kind == if a in Emitted(alerts[..], maxFetch, start) then Some(GRAFANA_ALERT_TYPE) else old(a.kind)
    ensures var start := CalculateFetchStartTime(storedLastFetch, firstFetch);
            incidents == Incidents(Emitted(alerts[..], maxFetch, start)) &&
            nextLastFetch == HighWater(start, Emitted(alerts[..], maxFetch, start))
    ensures nextLastFetch % MICROS_PER_SECOND == 0
    ensures nextLastFetch >= CalculateFetchStartTime(storedLastFetch, firstFetch)
    ensures storedLastFetch.Some? ==> nextLastFetch >= TruncateToSecond(storedLastFetch.value)
    ensures |incidents| <= if maxFetch <= 0 then 0 else maxFetch
  {
    var fetchTime := CalculateFetchStartTime(storedLastFetch, firstFetch);
    nextLastFetch, incidents := ParseAlerts(alerts, maxFetch, fetchTime);
    HighWaterWholeSecond(fetchTime, Emitted(alerts[..], maxFetch, fetchTime));
  }
}
