/** The notification and IDS views: `getNotificationsData` and `getIDSEventsData` (with
    its `RemoveOldData` and `MergeAgentsIDSEvents`) in backend/utils/db_utils.js. */
module EventsView {
  import opened Common
  import opened Dict
  import opened Json
  import opened Schemas
  import opened Decimal

  // ---- Notifications: `find({}).sort({ts: 1}).limit(50)` ----

  const NotificationLimit := 50

  predicate SortedByTs(s: seq<Notification>) {
    forall i, j :: 0 <= i < j < |s| ==> s[i].ts <= s[j].ts
  }

  /** Insert `x` before the first notification that is not older than it. */
  function Insert(x: Notification, s: seq<Notification>): (r: seq<Notification>)
    requires SortedByTs(s)
    ensures SortedByTs(r) && |r| == |s| + 1
    ensures multiset(r) == multiset(s) + multiset{x}
  {
    if s == [] then [x]
    else if x.ts <= s[0].ts then [x] + s
    else
      var rest := Insert(x, s[1..]);
      InsertBehindHead(x, s, rest);
      [s[0]] + rest
  }

  /** The step of `Insert` that keeps the head in front: the head is not
      newer than anything the recursive insertion returned. */
  lemma InsertBehindHead(x: Notification, s: seq<Notification>, rest: seq<Notification>)
    requires SortedByTs(s) && s != [] && s[0].ts < x.ts
    requires SortedByTs(rest) && multiset(rest) == multiset(s[1..]) + multiset{x}
    ensures SortedByTs([s[0]] + rest)
    ensures multiset([s[0]] + rest) == multiset(s) + multiset{x}
  {
    var r := [s[0]] + rest;
    forall y | y in rest ensures s[0].ts <= y.ts {
      assert y in multiset(rest);
      if y != x {
        assert y in multiset(s[1..]);
        var i :| 0 <= i < |s[1..]| && s[1..][i] == y;
        assert s[i + 1] == y;
      }
    }
    forall i, j | 0 <= i < j < |r| ensures r[i].ts <= r[j].ts {
      assert r[j] == rest[j - 1];
      if i > 0 {
        assert r[i] == rest[i - 1];
      }
    }
    assert s == [s[0]] + s[1..];
  }

  /** Insertion sort by timestamp. */
  function SortByTs(s: seq<Notification>): (r: seq<Notification>)
    ensures SortedByTs(r) && |r| == |s|
    ensures multiset(r) == multiset(s)
  {
    if s == [] then []
    else
      assert s == [s[0]] + s[1..];
      Insert(s[0], SortByTs(s[1..]))
  }

  /** In a sorted list, everything after a cut is at least as recent as everything before it. */
  lemma SortedCut(s: seq<Notification>, k: nat)
    requires SortedByTs(s) && k <= |s|
    ensures multiset(s) - multiset(s[..k]) == multiset(s[k..])
    ensures forall x, y :: x in s[..k] && y in s[k..] ==> x.ts <= y.ts
  {
    assert s == s[..k] + s[k..];
    forall x, y | x in s[..k] && y in s[k..] ensures x.ts <= y.ts {
      var i :| 0 <= i < k && s[..k][i] == x;
      var j :| 0 <= j < |s| - k && s[k..][j] == y;
      assert s[i] == x && s[k + j] == y;
    }
  }

  /** `getNotificationsData`: the 50 oldest notifications, oldest first, or the source's
      message when there are none. */
  function NotificationsData(ns: seq<Notification>): (r: Result<seq<Notification>>)
    ensures r.Err? <==> ns == []
    ensures r.Err? ==> r.msg == "There are not notifications for now"
    ensures r.Ok? ==> |r.value| == (if |ns| < NotificationLimit then |ns| else NotificationLimit)
    ensures r.Ok? ==> SortedByTs(r.value)
  {
    if ns == [] then Err("There are not notifications for now")
    else
      var sorted := SortByTs(ns);
      var k := if |ns| < NotificationLimit then |ns| else NotificationLimit;
      Ok(sorted[..k])
  }

  /** The notifications served are taken from the stored ones, and none left out is older
      than one served. */
  lemma NotificationsDataOldest(ns: seq<Notification>)
    requires ns != []
    ensures var r := NotificationsData(ns).value;
      && multiset(r) <= multiset(ns)
      && forall x, y :: x in r && y in multiset(ns) - multiset(r) ==> x.ts <= y.ts
  {
    var sorted := SortByTs(ns);
    var k := if |ns| < NotificationLimit then |ns| else NotificationLimit;
    assert NotificationsData(ns).value == sorted[..k];
    SortedCut(sorted, k);
    assert sorted == sorted[..k] + sorted[k..];
    assert multiset(ns) - multiset(sorted[..k]) == multiset(sorted[k..]);
  }

  // ---- IDS events: `RemoveOldData` and `MergeAgentsIDSEvents` ----

  /** Events older than 30 days (720 hours) are not served. */
  const RetentionSeconds := 30 * 24 * 3600

  /** `Math.trunc` on a real. */
  function Trunc(x: real): (r: int)
    ensures x >= 0.0 ==> r as real <= x < r as real + 1.0
    ensures x < 0.0 ==> r as real - 1.0 < x <= r as real
  {
    if x >= 0.0 then x.Floor else -((-x).Floor)
  }

  /** The whole second an event's `last_update` names: `moment.unix(x)` multiplies by 1000
      and truncates to milliseconds, and the `YYYY-MM-DD HH:mm:ss` format drops the
      milliseconds. The multiplication coerces its operand as `Number` does. A missing
      value, like NaN, is an invalid date, which no comparison admits. */
  function EventSeconds(e: Dict<Json>): (r: Option<int>)
    ensures "last_update" !in e.vals ==> r.None?
    ensures "last_update" in e.vals && e.vals["last_update"].Num? ==>
      r == Some(Trunc(e.vals["last_update"].r * 1000.0) / 1000)
  {
    match e.Get("last_update")
    case Some(v) => if JsNumber(v).Some? then Some(Trunc(JsNumber(v).value * 1000.0) / 1000) else None
    case None => None
  }

  /** An event stamped with the decimal text of a second is kept exactly as one stamped
      with that number. */
  lemma NumericTextStamp(e: Dict<Json>, n: nat, nowMs: int)
    requires "last_update" in e.vals && e.vals["last_update"] == Str(NatToString(n))
    ensures Recent(e, nowMs) <==> Recent(e.(vals := e.vals["last_update" := Num(n as real)]), nowMs)
    ensures Recent(e, nowMs) <==> nowMs / 1000 - n <= RetentionSeconds
  {
    JsNumberOfText(n);
  }

  /** `diff_hours <= 30 * 24`, with both instants cut to whole seconds. */
  predicate Recent(e: Dict<Json>, nowMs: int) {
    match EventSeconds(e)
    case Some(t) => nowMs / 1000 - t <= RetentionSeconds
    case None => false
  }

  /** `RemoveOldData`: the recent events, in their stored order. */
  function RemoveOldData(events: seq<Dict<Json>>, nowMs: int): (r: seq<Dict<Json>>)
    ensures IsSubsequence(r, events)
    ensures forall e :: e in r <==> e in events && Recent(e, nowMs)
  {
    if events == [] then []
    else
      var rest := RemoveOldData(events[1..], nowMs);
      assert events == [events[0]] + events[1..];
      SubsequenceCons(events[0], rest, events[1..]);
      if Recent(events[0], nowMs) then [events[0]] + rest else rest
  }

  /** A filter twice is the filter once. */
  lemma {:induction false} RemoveOldDataIdempotent(events: seq<Dict<Json>>, nowMs: int)
    ensures RemoveOldData(RemoveOldData(events, nowMs), nowMs) == RemoveOldData(events, nowMs)
  {
    if events != [] {
      RemoveOldDataIdempotent(events[1..], nowMs);
      var rest := RemoveOldData(events[1..], nowMs);
      if Recent(events[0], nowMs) {
        assert ([events[0]] + rest)[1..] == rest;
      }
    }
  }

  /** `MergeAgentsIDSEvents`: each agent's recent events, agents in store order. */
  function MergeAgentsIdsEvents(bundles: seq<IdsBundle>, nowMs: int): (r: seq<Dict<Json>>)
    decreases |bundles|
    ensures bundles == [] ==> r == []
    ensures forall e :: e in r <==> Recent(e, nowMs) && exists i :: 0 <= i < |bundles| && e in bundles[i].events
  {
    if bundles == [] then []
    else
      var prefix := bundles[..|bundles| - 1];
      var last := bundles[|bundles| - 1];
      var r := MergeAgentsIdsEvents(prefix, nowMs) + RemoveOldData(last.events, nowMs);
      assert forall i :: 0 <= i < |prefix| ==> prefix[i] == bundles[i];
      r
  }

  /** Every agent's events, agents in store order, before any filtering. */
  function AllEvents(bundles: seq<IdsBundle>): seq<Dict<Json>>
    decreases |bundles|
  {
    if bundles == [] then [] else AllEvents(bundles[..|bundles| - 1]) + bundles[|bundles| - 1].events
  }

  /** The age filter keeps the order of a concatenation: filtering `a + b` filters `a`,
      then `b`. */
  lemma {:induction false} RemoveOldDataAppend(a: seq<Dict<Json>>, b: seq<Dict<Json>>, nowMs: int)
    decreases |a|
    ensures RemoveOldData(a + b, nowMs) == RemoveOldData(a, nowMs) + RemoveOldData(b, nowMs)
  {
    if a == [] {
      assert a + b == b;
    } else {
      assert (a + b)[0] == a[0];
      assert (a + b)[1..] == a[1..] + b;
      RemoveOldDataAppend(a[1..], b, nowMs);
      var head := if Recent(a[0], nowMs) then [a[0]] else [];
      assert RemoveOldData(a + b, nowMs) == head + RemoveOldData(a[1..] + b, nowMs);
      assert RemoveOldData(a, nowMs) == head + RemoveOldData(a[1..], nowMs);
      AppendAssoc(head, RemoveOldData(a[1..], nowMs), RemoveOldData(b, nowMs));
    }
  }

  /** The merged feed is the recent part of every agent's events concatenated in store
      order: no event is reordered or repeated, and each agent's events stay together. */
  lemma {:induction false} MergeIsRecentOfAll(bundles: seq<IdsBundle>, nowMs: int)
    decreases |bundles|
    ensures MergeAgentsIdsEvents(bundles, nowMs) == RemoveOldData(AllEvents(bundles), nowMs)
  {
    if bundles != [] {
      var prefix := bundles[..|bundles| - 1];
      var last := bundles[|bundles| - 1];
      MergeIsRecentOfAll(prefix, nowMs);
      RemoveOldDataAppend(AllEvents(prefix), last.events, nowMs);
    }
  }

  /** Whatever an agent sent is served from the moment its events arrive until they are
      30 days old: an event stamped `t` whole seconds is served at any `now` within that
      window. */
  lemma RecentWindow(e: Dict<Json>, t: int, nowMs: int)
    requires "last_update" in e.vals && e.vals["last_update"] == Num(t as real)
    ensures Recent(e, nowMs) <==> nowMs / 1000 <= t + RetentionSeconds
  {
    assert Trunc(t as real * 1000.0) == t * 1000;
    assert (t * 1000) / 1000 == t;
  }
}
