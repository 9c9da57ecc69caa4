/**
  The daily time series of the performance charts: one bucket per calendar
  day in a range, plus any other day something happened on, each counting
  signups and events by type, returned in order of their date keys.
*/
module TimeSeries {
  import opened Wrappers
  import opened Dictionaries
  import opened Counters
  import opened Js
  import opened Sorting
  import Text
  import PurchaseHistory

  /** One day, in milliseconds; a local calendar step is taken to be exactly this long. */
  const DayMs: int := 86_400_000

  /** The counts of one day; `date` is the day's `YYYY-MM-DD` key. */
  datatype TimeSeriesData = TimeSeriesData(date: string, eventCounts: Dict<real>)

  /** A referred user: when they signed up through the code, and their events (any value). */
  datatype User = User(referralCreatedAt: Value, events: Value)

  /** One count to be added: `kind` on day `day`. */
  datatype Tally = Tally(day: string, kind: string)

  /** `toDateKey(value)` for a value that is not a `Date`: the day key of a number or a date string. */
  function ToDateKey(v: Value, host: Host): (r: Option<string>)
    ensures r.Some? ==> 'T' !in r.value
    ensures r.Some? ==> exists t :: r.value == DayKey(t, host)
  {
    if !Truthy(v) then None
    else
      var t := match v
        case Num(n) => TimeClip(n)
        case Str(s) => host.parseDate(s)
        case _ => None;
      if t.Some? then
        Text.BeforeIsPrefix(host.isoString(t.value), 'T');
        Some(DayKey(t.value, host))
      else None
  }

  /** The `signup` a user adds, when their `referralCreatedAt` has a day. */
  function SignupTally(u: User, host: Host): Option<Tally>
  {
    var d := ToDateKey(u.referralCreatedAt, host);
    if d.Some? && d.value != "" then Some(Tally(d.value, "signup")) else None
  }

  /**
    The count an event adds: a legacy `INITIAL_PURCHASE` counts as `free_trial`
    (period type "TRIAL") or `purchase` on the day of `purchased_at_ms`; any
    other event counts under its own `type` on the day of `date`, else
    `purchased_at_ms`, else `createdAt`.
  */
  function EventTally(e: Value, host: Host): Option<Tally>
    requires !IsNullish(e)
  {
    var eventType :=
      if PurchaseHistory.IsInitialPurchase(e) then
        Str(if Prop(e, "period_type") == Str("TRIAL") then "free_trial" else "purchase")
      else Prop(e, "type");
    var dateVal :=
      if PurchaseHistory.IsInitialPurchase(e) then Prop(e, "purchased_at_ms")
      else Or(Or(Prop(e, "date"), Prop(e, "purchased_at_ms")), Prop(e, "createdAt"));
    var d := ToDateKey(dateVal, host);
    if d.Some? && d.value != "" && Truthy(eventType) then Some(Tally(d.value, ToJsString(eventType, host)))
    else None
  }

  function Opt(t: Option<Tally>): seq<Tally>
  {
    if t.Some? then [t.value] else []
  }

  /** `user.events` when it is an array, and nothing otherwise. */
  function UserEvents(u: User): seq<Value>
  {
    if u.events.Arr? then u.events.elems else []
  }

  /** Reading `event.type` of `null` or `undefined` throws, so no event is either. */
  predicate EventsDefined(users: seq<User>)
  {
    forall u, e :: u in users && e in UserEvents(u) ==> !IsNullish(e)
  }

  function SignupTallies(users: seq<User>, host: Host): seq<Tally>
  {
    if users == [] then [] else Opt(SignupTally(users[0], host)) + SignupTallies(users[1..], host)
  }

  function EventTalliesOf(events: seq<Value>, host: Host): seq<Tally>
    requires forall e :: e in events ==> !IsNullish(e)
  {
    if events == [] then [] else Opt(EventTally(events[0], host)) + EventTalliesOf(events[1..], host)
  }

  function EventTallies(users: seq<User>, host: Host): seq<Tally>
    requires EventsDefined(users)
  {
    if users == [] then []
    else
      assert forall u :: u in users[1..] ==> u in users;
      EventTalliesOf(UserEvents(users[0]), host) + EventTallies(users[1..], host)
  }

  /** Every count the users add: their signups first, then their events. */
  function Tallies(users: seq<User>, host: Host): seq<Tally>
    requires EventsDefined(users)
  {
    SignupTallies(users, host) + EventTallies(users, host)
  }

  function EmptyDay(d: string): TimeSeriesData
  {
    TimeSeriesData(d, [])
  }

  /** An empty bucket for each day from `cur` to `end`, a day at a time. */
  function Prefill(m: Dict<TimeSeriesData>, cur: int, end: int, host: Host): Dict<TimeSeriesData>
    decreases end - cur
  {
    if cur > end then m
    else
      var d := DayKey(cur, host);
      Prefill(if d != "" then Put(m, d, EmptyDay(d)) else m, cur + DayMs, end, host)
  }

  /** The day keys `Prefill` writes. */
  function RangeDays(cur: int, end: int, host: Host): set<string>
    decreases end - cur
  {
    if cur > end then {}
    else (if DayKey(cur, host) != "" then {DayKey(cur, host)} else {}) + RangeDays(cur + DayMs, end, host)
  }

  /** The start of the range: the given date, or 30 days before `now`; `None` when the given date is invalid. */
  function StartOf(startDate: Option<string>, host: Host, now: int): Option<int>
  {
    if Filled(startDate).Some? then host.parseDate(startDate.value) else Some(now - 30 * DayMs)
  }

  /** The end of the range: the given date, or `now`; `None` when the given date is invalid. */
  function EndOf(endDate: Option<string>, host: Host, now: int): Option<int>
  {
    if Filled(endDate).Some? then host.parseDate(endDate.value) else Some(now)
  }

  /** The buckets before any count: one per day of the range when both ends are valid. */
  function Prefilled(startDate: Option<string>, endDate: Option<string>, host: Host, now: int): Dict<TimeSeriesData>
  {
    var start, end := StartOf(startDate, host, now), EndOf(endDate, host, now);
    if start.Some? && end.Some? then Prefill([], start.value, end.value, host) else []
  }

  /** Adds one to `t.kind` on day `t.day`, creating the day's bucket when it is missing. */
  function Bump(m: Dict<TimeSeriesData>, t: Tally): Dict<TimeSeriesData>
  {
    var m1 := if t.day in Keys(m) then m else Put(m, t.day, EmptyDay(t.day));
    var node := Get(m1, t.day).value;
    Put(m1, t.day, node.(eventCounts := AddTo(node.eventCounts, t.kind, 1.0)))
  }

  function BumpAll(m: Dict<TimeSeriesData>, ts: seq<Tally>): Dict<TimeSeriesData>
    decreases ts
  {
    if ts == [] then m else BumpAll(Bump(m, ts[0]), ts[1..])
  }

  /** `Array.from(dateMap.values())`. */
  function Values(m: Dict<TimeSeriesData>): seq<TimeSeriesData>
  {
    seq(|m|, i requires 0 <= i < |m| => m[i].value)
  }

  /** `(a, b) => a.date.localeCompare(b.date)`. */
  function ByDate(host: Host): (TimeSeriesData, TimeSeriesData) -> real
  {
    (a: TimeSeriesData, b: TimeSeriesData) => host.localeCompare(a.date, b.date) as real
  }

  /** `buildTimeSeriesFromUsers(users, startDate, endDate)` as a value, at instant `now`. */
  function TimeSeriesOf(users: seq<User>, startDate: Option<string>, endDate: Option<string>, host: Host, now: int)
    : seq<TimeSeriesData>
    requires EventsDefined(users)
  {
    Sort(Values(Buckets(users, startDate, endDate, host, now)), ByDate(host))
  }

  /** `node.eventCounts[kind] = (node.eventCounts[kind] || 0) + 1` on the bucket of `day`, made when missing. */
  method CountOn(dateMap: Dict<TimeSeriesData>, day: string, kind: string) returns (m: Dict<TimeSeriesData>)
    ensures m == Bump(dateMap, Tally(day, kind))
  {
    m := dateMap;
    if day !in Keys(m) {
      m := Put(m, day, EmptyDay(day));
    }
    var node := Get(m, day).value;
    m := Put(m, day, node.(eventCounts := AddTo(node.eventCounts, kind, 1.0)));
  }

  /** The body of the inner `user.events.forEach`: what one event counts, and on which day. */
  method ClassifyEvent(event: Value, host: Host) returns (t: Option<Tally>)
    requires !IsNullish(event)
    ensures t == EventTally(event, host)
  {
    var eventType := Prop(event, "type");
    var dateVal := Or(Or(Prop(event, "date"), Prop(event, "purchased_at_ms")), Prop(event, "createdAt"));
    if Prop(event, "type") == Str("INITIAL_PURCHASE") {
      if Prop(event, "period_type") == Str("TRIAL") {
        eventType := Str("free_trial");
      } else if Prop(event, "period_type") == Str("NORMAL") {
        eventType := Str("purchase");
      } else {
        eventType := Str("purchase");
      }
      dateVal := Prop(event, "purchased_at_ms");
    }
    var d := ToDateKey(dateVal, host);
    if d.Some? && d.value != "" && Truthy(eventType) {
      t := Some(Tally(d.value, ToJsString(eventType, host)));
    } else {
      t := None;
    }
  }

  /** The inner `user.events.forEach` of `buildTimeSeriesFromUsers`. */
  method CountEvents(dateMap: Dict<TimeSeriesData>, events: seq<Value>, host: Host) returns (m: Dict<TimeSeriesData>)
    requires forall e :: e in events ==> !IsNullish(e)
    ensures m == BumpAll(dateMap, EventTalliesOf(events, host))
  {
    m := dateMap;
    for j := 0 to |events|
      invariant BumpAll(m, EventTalliesOf(events[j..], host)) == BumpAll(dateMap, EventTalliesOf(events, host))
    {
      assert events[j..][1..] == events[j + 1..];
      assert events[j] in events;
      var t := ClassifyEvent(events[j], host);
      BumpAllOpt(m, t, EventTalliesOf(events[j + 1..], host));
      if t.Some? {
        m := CountOn(m, t.value.day, t.value.kind);
      }
    }
  }

  /** The `while (current <= end)` loop: an empty bucket per day of the range. */
  method FillRange(start: int, end: int, host: Host) returns (m: Dict<TimeSeriesData>)
    ensures m == Prefill([], start, end, host)
  {
    m := [];
    var current := start;
    while current <= end
      invariant Prefill(m, current, end, host) == Prefill([], start, end, host)
      decreases end - current
    {
      m := FillDay(m, current, end, host);
      current := current + DayMs;
    }
  }

  /** One pass of that loop: `dateMap[key] = { date: key, eventCounts: {} }` when the day has a key. */
  method FillDay(m: Dict<TimeSeriesData>, current: int, end: int, host: Host) returns (next: Dict<TimeSeriesData>)
    requires current <= end
    ensures next == if DayKey(current, host) != "" then Put(m, DayKey(current, host), EmptyDay(DayKey(current, host))) else m
    ensures DayKey(current, host) != "" ==> Get(next, DayKey(current, host)) == Some(EmptyDay(DayKey(current, host)))
    ensures forall k :: k != DayKey(current, host) ==> Get(next, k) == Get(m, k)
    ensures Prefill(next, current + DayMs, end, host) == Prefill(m, current, end, host)
  {
    var d := DayKey(current, host);
    if d != "" {
      next := Put(m, d, EmptyDay(d));
    } else {
      next := m;
    }
    PrefillStep(m, next, current, end, host);
  }

  /** The first `users.forEach`: one `signup` per user with a day. */
  method CountSignups(dateMap: Dict<TimeSeriesData>, users: seq<User>, host: Host) returns (m: Dict<TimeSeriesData>)
    ensures m == BumpAll(dateMap, SignupTallies(users, host))
  {
    m := dateMap;
    for i := 0 to |users|
      invariant BumpAll(m, SignupTallies(users[i..], host)) == BumpAll(dateMap, SignupTallies(users, host))
    {
      assert users[i..][1..] == users[i + 1..];
      BumpAllOpt(m, SignupTally(users[i], host), SignupTallies(users[i + 1..], host));
      var d := ToDateKey(users[i].referralCreatedAt, host);
      if d.Some? && d.value != "" {
        m := CountOn(m, d.value, "signup");
      }
    }
    assert users[|users|..] == [];
  }

  /** The second `users.forEach`: the events of every user whose `events` is an array. */
  method CountAllEvents(dateMap: Dict<TimeSeriesData>, users: seq<User>, host: Host) returns (m: Dict<TimeSeriesData>)
    requires EventsDefined(users)
    ensures m == BumpAll(dateMap, EventTallies(users, host))
  {
    m := dateMap;
    for i := 0 to |users|
      invariant EventsDefined(users[i..])
      invariant BumpAll(m, EventTallies(users[i..], host)) == BumpAll(dateMap, EventTallies(users, host))
    {
      assert users[i..][1..] == users[i + 1..];
      assert users[i] in users[i..];
      var before := m;
      if users[i].events.Arr? {
        m := CountEvents(m, users[i].events.elems, host);
      }
      BumpAllAppend(before, EventTalliesOf(UserEvents(users[i]), host), EventTallies(users[i + 1..], host));
    }
    assert users[|users|..] == [];
  }

  /** `buildTimeSeriesFromUsers(users, startDate, endDate)`, at instant `now`. */
  method BuildTimeSeriesFromUsers(
    users: seq<User>, startDate: Option<string>, endDate: Option<string>, host: Host, now: int)
    returns (r: seq<TimeSeriesData>)
    requires EventsDefined(users)
    ensures r == TimeSeriesOf(users, startDate, endDate, host, now)
  {
    var dateMap: Dict<TimeSeriesData> := [];
    var start := if Filled(startDate).Some? then host.parseDate(startDate.value) else None;
    var end := if Filled(endDate).Some? then host.parseDate(endDate.value) else Some(now);
    if Filled(startDate).None? {
      start := Some(now - 30 * DayMs);
    }
    if start.Some? && end.Some? {
      dateMap := FillRange(start.value, end.value, host);
    }
    ghost var prefilled := dateMap;
    assert prefilled == Prefilled(startDate, endDate, host, now);
    dateMap := CountSignups(dateMap, users, host);
    dateMap := CountAllEvents(dateMap, users, host);
    assert dateMap == BumpAll(prefilled, Tallies(users, host)) by {
      BumpAllAppend(prefilled, SignupTallies(users, host), EventTallies(users, host));
    }
    r := Sort(Values(dateMap), ByDate(host));
  }

  lemma BumpAllOpt(m: Dict<TimeSeriesData>, t: Option<Tally>, rest: seq<Tally>)
    ensures BumpAll(m, Opt(t) + rest) == BumpAll(if t.Some? then Bump(m, t.value) else m, rest)
  {
    if t.Some? {
      assert (Opt(t) + rest)[0] == t.value && (Opt(t) + rest)[1..] == rest;
    } else {
      assert Opt(t) + rest == rest;
    }
  }

  lemma PrefillStep(m: Dict<TimeSeriesData>, next: Dict<TimeSeriesData>, cur: int, end: int, host: Host)
    requires cur <= end
    requires next == if DayKey(cur, host) != "" then Put(m, DayKey(cur, host), EmptyDay(DayKey(cur, host))) else m
    ensures Prefill(next, cur + DayMs, end, host) == Prefill(m, cur, end, host)
  {
  }

  lemma {:induction false} BumpAllAppend(m: Dict<TimeSeriesData>, a: seq<Tally>, b: seq<Tally>)
    ensures BumpAll(m, a + b) == BumpAll(BumpAll(m, a), b)
    decreases a
  {
    if a == [] {
      assert a + b == b;
    } else {
      assert (a + b)[0] == a[0] && (a + b)[1..] == a[1..] + b;
      BumpAllAppend(Bump(m, a[0]), a[1..], b);
    }
  }
  /** Each bucket is stored under its own date. */
  predicate Dated(m: Dict<TimeSeriesData>)
  {
    forall i :: 0 <= i < |m| ==> m[i].value.date == m[i].key
  }

  /** No day has two buckets, and each bucket is stored under its date. */
  predicate WellFormed(m: Dict<TimeSeriesData>)
  {
    DistinctKeys(m) && Dated(m)
  }

  /** No bucket has counted anything. */
  predicate AllEmpty(m: Dict<TimeSeriesData>)
  {
    forall i :: 0 <= i < |m| ==> m[i].value.eventCounts == []
  }

  /** The days the tallies fall on. */
  function TallyDays(ts: seq<Tally>): set<string>
  {
    set t | t in ts :: t.day
  }

  /** The days `buildTimeSeriesFromUsers` pre-fills: those of the range when both ends are valid. */
  function PrefilledDays(startDate: Option<string>, endDate: Option<string>, host: Host, now: int): set<string>
  {
    var start, end := StartOf(startDate, host, now), EndOf(endDate, host, now);
    if start.Some? && end.Some? then RangeDays(start.value, end.value, host) else {}
  }

  /** What has been counted for `kind` on day `d`. */
  function CountAt(m: Dict<TimeSeriesData>, d: string, kind: string): real
  {
    if Get(m, d).Some? then Lookup(Get(m, d).value.eventCounts, kind) else 0.0
  }

  /** All counts of all buckets, added up. */
  function Total(s: seq<TimeSeriesData>): real
  {
    if s == [] then 0.0 else Sum(s[0].eventCounts) + Total(s[1..])
  }

  /**
    `localeCompare` orders the given day keys totally: any two compare one way
    or the other, the order is transitive, and two different keys never compare
    equal. Nothing is asked of other strings, which a collation may well
    compare equal (canonically equivalent ones must).
  */
  ghost predicate LocaleOrderOn(host: Host, keys: set<string>)
  {
    (forall a, b {:trigger IsDay(keys, a), IsDay(keys, b)} | IsDay(keys, a) && IsDay(keys, b) ::
       host.localeCompare(a, b) <= 0 || host.localeCompare(b, a) <= 0)
    && (forall a, b, c {:trigger IsDay(keys, a), IsDay(keys, b), IsDay(keys, c)}
          | IsDay(keys, a) && IsDay(keys, b) && IsDay(keys, c)
            && host.localeCompare(a, b) <= 0 && host.localeCompare(b, c) <= 0 :: host.localeCompare(a, c) <= 0)
    && (forall a, b {:trigger IsDay(keys, a), IsDay(keys, b)} | IsDay(keys, a) && IsDay(keys, b) ::
          host.localeCompare(a, b) == 0 ==> a == b)
  }

  /** `d` is one of the day keys `localeCompare` is asked about. */
  predicate IsDay(keys: set<string>, d: string)
  {
    d in keys
  }

  lemma PutKeeps(m: Dict<TimeSeriesData>, k: string, v: TimeSeriesData)
    ensures Dated(m) && v.date == k ==> Dated(Put(m, k, v))
    ensures AllEmpty(m) && v.eventCounts == [] ==> AllEmpty(Put(m, k, v))
  {
    PutEntries(m, k, v);
    var r := Put(m, k, v);
    forall i | 0 <= i < |r|
      ensures r[i] in m || r[i] == Entry(k, v)
    {
      assert r[i] in r;
    }
  }

  lemma GetDated(m: Dict<TimeSeriesData>, k: string)
    requires Dated(m)
    ensures Get(m, k).Some? ==> Get(m, k).value.date == k
  {
    GetFound(m, k);
  }

  lemma BumpWellFormed(m: Dict<TimeSeriesData>, t: Tally)
    requires WellFormed(m)
    ensures WellFormed(Bump(m, t))
    ensures Keys(Bump(m, t)) == Keys(m) + {t.day}
  {
    var m1 := if t.day in Keys(m) then m else Put(m, t.day, EmptyDay(t.day));
    PutKeeps(m, t.day, EmptyDay(t.day));
    GetDated(m1, t.day);
    var node := Get(m1, t.day).value;
    PutKeeps(m1, t.day, node.(eventCounts := AddTo(node.eventCounts, t.kind, 1.0)));
  }

  lemma {:induction false} BumpAllWellFormed(m: Dict<TimeSeriesData>, ts: seq<Tally>)
    requires WellFormed(m)
    ensures WellFormed(BumpAll(m, ts))
    ensures Keys(BumpAll(m, ts)) == Keys(m) + TallyDays(ts)
    decreases ts
  {
    if ts != [] {
      BumpWellFormed(m, ts[0]);
      BumpAllWellFormed(Bump(m, ts[0]), ts[1..]);
      TallyDaysCons(ts);
    }
  }

  lemma TallyDaysCons(ts: seq<Tally>)
    requires ts != []
    ensures TallyDays(ts) == {ts[0].day} + TallyDays(ts[1..])
  {
    assert ts == [ts[0]] + ts[1..];
  }

  lemma {:induction false} PrefillFacts(m: Dict<TimeSeriesData>, cur: int, end: int, host: Host)
    requires WellFormed(m) && AllEmpty(m)
    ensures WellFormed(Prefill(m, cur, end, host)) && AllEmpty(Prefill(m, cur, end, host))
    ensures Keys(Prefill(m, cur, end, host)) == Keys(m) + RangeDays(cur, end, host)
    decreases end - cur
  {
    if cur <= end {
      var d := DayKey(cur, host);
      var m1 := if d != "" then Put(m, d, EmptyDay(d)) else m;
      PutKeeps(m, d, EmptyDay(d));
      PrefillFacts(m1, cur + DayMs, end, host);
    }
  }

  /** Every day reached from `cur` in whole days without passing `end` is one `Prefill` writes. */
  lemma {:induction false} RangeDaysCover(cur: int, end: int, host: Host, k: nat)
    requires cur + k * DayMs <= end && DayKey(cur + k * DayMs, host) != ""
    ensures DayKey(cur + k * DayMs, host) in RangeDays(cur, end, host)
    decreases k
  {
    if k > 0 {
      RangeDaysCover(cur + DayMs, end, host, k - 1);
    }
  }

  lemma CountAtBump(m: Dict<TimeSeriesData>, t: Tally, d: string, kind: string)
    ensures CountAt(Bump(m, t), d, kind) == CountAt(m, d, kind) + (if t == Tally(d, kind) then 1.0 else 0.0)
  {
  }

  lemma {:induction false} CountAtBumpAll(m: Dict<TimeSeriesData>, ts: seq<Tally>, d: string, kind: string)
    ensures CountAt(BumpAll(m, ts), d, kind) == CountAt(m, d, kind) + multiset(ts)[Tally(d, kind)] as real
    decreases ts
  {
    if ts != [] {
      CountAtBump(m, ts[0], d, kind);
      CountAtBumpAll(Bump(m, ts[0]), ts[1..], d, kind);
      assert ts == [ts[0]] + ts[1..];
    }
  }

  lemma CountAtEmpty(m: Dict<TimeSeriesData>, d: string, kind: string)
    requires AllEmpty(m)
    ensures CountAt(m, d, kind) == 0.0
  {
    GetFound(m, d);
  }

  lemma {:induction false} TotalAppend(a: seq<TimeSeriesData>, b: seq<TimeSeriesData>)
    ensures Total(a + b) == Total(a) + Total(b)
  {
    if a == [] {
      assert a + b == b;
    } else {
      assert (a + b)[1..] == a[1..] + b;
      TotalAppend(a[1..], b);
    }
  }

  lemma {:induction false} TotalInsert(t: seq<TimeSeriesData>, x: TimeSeriesData, cmp: (TimeSeriesData, TimeSeriesData) -> real)
    ensures Total(Insert(t, x, cmp)) == Total(t) + Sum(x.eventCounts)
  {
    assert Total([x]) == Sum(x.eventCounts);
    if t == [] {
    } else if cmp(t[|t| - 1], x) <= 0.0 {
      TotalAppend(t, [x]);
    } else {
      var init, last := t[..|t| - 1], t[|t| - 1];
      TotalInsert(init, x, cmp);
      TotalAppend(Insert(init, x, cmp), [last]);
      assert t == init + [last];
      TotalAppend(init, [last]);
    }
  }

  lemma TotalLast(t: seq<TimeSeriesData>)
    requires t != []
    ensures Total(t) == Total(t[..|t| - 1]) + Sum(t[|t| - 1].eventCounts)
  {
    assert t == t[..|t| - 1] + [t[|t| - 1]];
    assert [t[|t| - 1]][1..] == [];
    TotalAppend(t[..|t| - 1], [t[|t| - 1]]);
  }

  lemma TotalSortStep(s: seq<TimeSeriesData>, cmp: (TimeSeriesData, TimeSeriesData) -> real)
    requires s != []
    ensures Total(Sort(s, cmp)) == Total(Sort(s[..|s| - 1], cmp)) + Sum(s[|s| - 1].eventCounts)
  {
    TotalInsert(Sort(s[..|s| - 1], cmp), s[|s| - 1], cmp);
  }

  /** Sorting the buckets leaves their total as it was. */
  lemma {:induction false} TotalSort(s: seq<TimeSeriesData>, cmp: (TimeSeriesData, TimeSeriesData) -> real)
    ensures Total(Sort(s, cmp)) == Total(s)
  {
    if s != [] {
      TotalSortStep(s, cmp);
      TotalSort(s[..|s| - 1], cmp);
      TotalLast(s);
    }
  }

  lemma ValuesCons(m: Dict<TimeSeriesData>)
    requires m != []
    ensures Values(m) == [m[0].value] + Values(m[1..])
  {
  }

  lemma {:induction false} TotalPut(m: Dict<TimeSeriesData>, k: string, v: TimeSeriesData)
    ensures Total(Values(Put(m, k, v)))
            == Total(Values(m)) - (if Get(m, k).Some? then Sum(Get(m, k).value.eventCounts) else 0.0) + Sum(v.eventCounts)
  {
    if m == [] {
      assert Values(Put(m, k, v)) == [v];
    } else {
      ValuesCons(m);
      ValuesCons(Put(m, k, v));
      if m[0].key != k {
        TotalPut(m[1..], k, v);
        assert Put(m, k, v)[1..] == Put(m[1..], k, v);
      } else {
        assert Put(m, k, v)[1..] == m[1..];
      }
    }
  }

  lemma TotalBump(m: Dict<TimeSeriesData>, t: Tally)
    ensures Total(Values(Bump(m, t))) == Total(Values(m)) + 1.0
  {
    var m1 := if t.day in Keys(m) then m else Put(m, t.day, EmptyDay(t.day));
    TotalPut(m, t.day, EmptyDay(t.day));
    var node := Get(m1, t.day).value;
    TotalPut(m1, t.day, node.(eventCounts := AddTo(node.eventCounts, t.kind, 1.0)));
  }

  lemma {:induction false} TotalBumpAll(m: Dict<TimeSeriesData>, ts: seq<Tally>)
    ensures Total(Values(BumpAll(m, ts))) == Total(Values(m)) + |ts| as real
    decreases ts
  {
    if ts != [] {
      TotalBump(m, ts[0]);
      TotalBumpAll(Bump(m, ts[0]), ts[1..]);
    }
  }

  lemma {:induction false} TotalEmpty(m: Dict<TimeSeriesData>)
    requires AllEmpty(m)
    ensures Total(Values(m)) == 0.0
  {
    if m != [] {
      ValuesCons(m);
      TotalEmpty(m[1..]);
    }
  }

  /** The buckets before the sort: the pre-filled range with every tally counted. */
  function Buckets(users: seq<User>, startDate: Option<string>, endDate: Option<string>, host: Host, now: int)
    : Dict<TimeSeriesData>
    requires EventsDefined(users)
  {
    BumpAll(Prefilled(startDate, endDate, host, now), Tallies(users, host))
  }

  lemma PrefilledFacts(startDate: Option<string>, endDate: Option<string>, host: Host, now: int)
    ensures var p := Prefilled(startDate, endDate, host, now);
            WellFormed(p) && AllEmpty(p) && Keys(p) == PrefilledDays(startDate, endDate, host, now)
  {
    var start, end := StartOf(startDate, host, now), EndOf(endDate, host, now);
    if start.Some? && end.Some? {
      PrefillFacts([], start.value, end.value, host);
    }
  }

  /** The buckets are well formed, one for each pre-filled day and each day a tally falls on. */
  lemma BucketsShape(users: seq<User>, startDate: Option<string>, endDate: Option<string>, host: Host, now: int)
    requires EventsDefined(users)
    ensures WellFormed(Buckets(users, startDate, endDate, host, now))
    ensures Keys(Buckets(users, startDate, endDate, host, now))
            == PrefilledDays(startDate, endDate, host, now) + TallyDays(Tallies(users, host))
  {
    PrefilledFacts(startDate, endDate, host, now);
    BumpAllWellFormed(Prefilled(startDate, endDate, host, now), Tallies(users, host));
  }

  /** Each bucket's count of a kind is the number of tallies of that kind on its day. */
  lemma BucketsCount(users: seq<User>, startDate: Option<string>, endDate: Option<string>, host: Host, now: int,
                     d: string, kind: string)
    requires EventsDefined(users)
    ensures CountAt(Buckets(users, startDate, endDate, host, now), d, kind)
            == multiset(Tallies(users, host))[Tally(d, kind)] as real
  {
    var p := Prefilled(startDate, endDate, host, now);
    PrefilledFacts(startDate, endDate, host, now);
    CountAtBumpAll(p, Tallies(users, host), d, kind);
    CountAtEmpty(p, d, kind);
  }

  /** All the buckets' counts add up to the number of tallies. */
  lemma BucketsTotal(users: seq<User>, startDate: Option<string>, endDate: Option<string>, host: Host, now: int)
    requires EventsDefined(users)
    ensures Total(Values(Buckets(users, startDate, endDate, host, now))) == |Tallies(users, host)| as real
  {
    var p := Prefilled(startDate, endDate, host, now);
    PrefilledFacts(startDate, endDate, host, now);
    TotalBumpAll(p, Tallies(users, host));
    TotalEmpty(p);
  }

  /**
    The series has a bucket for exactly the days of the range and the days
    some signup or event falls on; every day from the start, a day at a time,
    up to the end is among them.
  */
  lemma SeriesDays(users: seq<User>, startDate: Option<string>, endDate: Option<string>, host: Host, now: int)
    requires EventsDefined(users)
    ensures var r := TimeSeriesOf(users, startDate, endDate, host, now);
            (set i | 0 <= i < |r| :: r[i].date)
            == PrefilledDays(startDate, endDate, host, now) + TallyDays(Tallies(users, host))
  {
    var m := Buckets(users, startDate, endDate, host, now);
    BucketsShape(users, startDate, endDate, host, now);
    var vs := Values(m);
    SortPermutes(vs, ByDate(host));
    DatesOfPermutation(Sort(vs, ByDate(host)), vs);
    DatesOfValues(m);
  }

  /** Reordering the entries keeps the set of their days. */
  lemma DatesOfPermutation(a: seq<TimeSeriesData>, b: seq<TimeSeriesData>)
    requires multiset(a) == multiset(b)
    ensures (set i | 0 <= i < |a| :: a[i].date) == (set i | 0 <= i < |b| :: b[i].date)
  {
    var da := set i | 0 <= i < |a| :: a[i].date;
    var db := set i | 0 <= i < |b| :: b[i].date;
    forall d | d in da
      ensures d in db
    {
      var i :| 0 <= i < |a| && a[i].date == d;
      assert a[i] in multiset(b);
      var j :| 0 <= j < |b| && b[j] == a[i];
    }
    forall d | d in db
      ensures d in da
    {
      var j :| 0 <= j < |b| && b[j].date == d;
      assert b[j] in multiset(a);
      var i :| 0 <= i < |a| && a[i] == b[j];
    }
  }

  /** The days of the buckets of a dated map are its keys. */
  lemma DatesOfValues(m: Dict<TimeSeriesData>)
    requires Dated(m)
    ensures (set i | 0 <= i < |Values(m)| :: Values(m)[i].date) == Keys(m)
  {
    var vs := Values(m);
    var dates := set i | 0 <= i < |vs| :: vs[i].date;
    forall d | d in dates
      ensures d in Keys(m)
    {
      var j :| 0 <= j < |vs| && vs[j].date == d;
      KeysAt(m, m[j].key);
    }
    forall d | d in Keys(m)
      ensures d in dates
    {
      KeysAt(m, d);
      var j :| 0 <= j < |m| && m[j].key == d;
      assert vs[j].date == d;
    }
  }

  /** With no start date the range begins 30 days before `now`, and with no end date it ends at `now`. */
  lemma DefaultRangeCovered(users: seq<User>, host: Host, now: int, k: nat)
    requires EventsDefined(users)
    requires k <= 30 && DayKey(now - 30 * DayMs + k * DayMs, host) != ""
    ensures var r := TimeSeriesOf(users, None, None, host, now);
            exists i :: 0 <= i < |r| && r[i].date == DayKey(now - 30 * DayMs + k * DayMs, host)
  {
    SeriesDays(users, None, None, host, now);
    RangeDaysCover(now - 30 * DayMs, now, host, k);
    var r := TimeSeriesOf(users, None, None, host, now);
    var d := DayKey(now - 30 * DayMs + k * DayMs, host);
    assert PrefilledDays(None, None, host, now) == RangeDays(now - 30 * DayMs, now, host);
    assert d in (set i | 0 <= i < |r| :: r[i].date);
    var i :| 0 <= i < |r| && r[i].date == d;
  }

  /** Each bucket counts, for every kind, exactly the tallies of that kind on its day. */
  lemma SeriesCounts(users: seq<User>, startDate: Option<string>, endDate: Option<string>, host: Host, now: int)
    requires EventsDefined(users)
    ensures var r := TimeSeriesOf(users, startDate, endDate, host, now);
            forall i, kind :: 0 <= i < |r| ==>
              Lookup(r[i].eventCounts, kind) == multiset(Tallies(users, host))[Tally(r[i].date, kind)] as real
  {
    var m := Buckets(users, startDate, endDate, host, now);
    var r := TimeSeriesOf(users, startDate, endDate, host, now);
    BucketsShape(users, startDate, endDate, host, now);
    var vs := Values(m);
    SortPermutes(vs, ByDate(host));
    forall i, kind | 0 <= i < |r|
      ensures Lookup(r[i].eventCounts, kind) == multiset(Tallies(users, host))[Tally(r[i].date, kind)] as real
    {
      assert r[i] in multiset(vs);
      var j :| 0 <= j < |vs| && vs[j] == r[i];
      GetAt(m, j);
      BucketsCount(users, startDate, endDate, host, now, r[i].date, kind);
      assert CountAt(m, r[i].date, kind) == Lookup(r[i].eventCounts, kind);
    }
  }

  /** All counts together are the number of signups with a day plus the number of events counted. */
  lemma SeriesTotal(users: seq<User>, startDate: Option<string>, endDate: Option<string>, host: Host, now: int)
    requires EventsDefined(users)
    ensures Total(TimeSeriesOf(users, startDate, endDate, host, now))
            == (|SignupTallies(users, host)| + |EventTallies(users, host)|) as real
  {
    BucketsTotal(users, startDate, endDate, host, now);
    TotalSort(Values(Buckets(users, startDate, endDate, host, now)), ByDate(host));
  }

  /** Each bucket's date comes strictly before the next one's under `localeCompare`. */
  predicate Ascending(r: seq<TimeSeriesData>, host: Host)
  {
    forall i, j :: 0 <= i < j < |r| ==> host.localeCompare(r[i].date, r[j].date) < 0
  }

  function BucketDate(x: TimeSeriesData): string
  {
    x.date
  }

  lemma ByDatePreorder(host: Host, keys: set<string>, dom: multiset<TimeSeriesData>)
    requires LocaleOrderOn(host, keys)
    requires forall x :: x in dom ==> x.date in keys
    ensures TotalPreorderOn(ByDate(host), dom)
  {
    var cmp := ByDate(host);
    forall a, b | InDomain(dom, a) && InDomain(dom, b)
      ensures cmp(a, b) <= 0.0 || cmp(b, a) <= 0.0
    {
      assert IsDay(keys, a.date) && IsDay(keys, b.date);
    }
    forall a, b, c | InDomain(dom, a) && InDomain(dom, b) && InDomain(dom, c) && cmp(a, b) <= 0.0 && cmp(b, c) <= 0.0
      ensures cmp(a, c) <= 0.0
    {
      assert IsDay(keys, a.date) && IsDay(keys, b.date) && IsDay(keys, c.date);
      assert host.localeCompare(a.date, b.date) <= 0 && host.localeCompare(b.date, c.date) <= 0;
    }
  }

  /** Every bucket's date is a key of the map. */
  lemma ValuesDatedByKeys(m: Dict<TimeSeriesData>)
    requires WellFormed(m)
    ensures forall x :: x in multiset(Values(m)) ==> x.date in Keys(m)
  {
    var vs := Values(m);
    forall x: TimeSeriesData | x in multiset(vs)
      ensures x.date in Keys(m)
    {
      assert x in vs;
      var i :| 0 <= i < |vs| && vs[i] == x;
      KeysAt(m, m[i].key);
    }
  }

  lemma ValuesDistinctDates(m: Dict<TimeSeriesData>)
    requires WellFormed(m)
    ensures DistinctBy(Values(m), BucketDate)
  {
    var vs := Values(m);
    forall i, j | 0 <= i < j < |vs|
      ensures BucketDate(vs[i]) != BucketDate(vs[j])
    {
      DistinctKeysAt(m, i, j);
    }
  }

  /**
    Sorting well-formed buckets by date, under a `localeCompare` that orders
    their days totally, puts them in strictly ascending order.
  */
  lemma SortByDateAscending(m: Dict<TimeSeriesData>, host: Host)
    requires WellFormed(m) && LocaleOrderOn(host, Keys(m))
    ensures Ascending(Sort(Values(m), ByDate(host)), host)
  {
    var vs, keys := Values(m), Keys(m);
    var r := Sort(vs, ByDate(host));
    ValuesDatedByKeys(m);
    ByDatePreorder(host, keys, multiset(vs));
    SortSorted(vs, ByDate(host));
    SortPermutes(vs, ByDate(host));
    ValuesDistinctDates(m);
    SortDistinct(vs, ByDate(host), BucketDate);
    forall i, j | 0 <= i < j < |r|
      ensures host.localeCompare(r[i].date, r[j].date) < 0
    {
      assert ByDate(host)(r[i], r[j]) <= 0.0;
      assert BucketDate(r[i]) != BucketDate(r[j]);
      assert r[i] in multiset(r) && r[j] in multiset(r);
      StrictlyBefore(host, keys, r[i].date, r[j].date);
    }
  }

  /** Two different days that compare at most 0 compare below 0. */
  lemma StrictlyBefore(host: Host, keys: set<string>, a: string, b: string)
    requires LocaleOrderOn(host, keys)
    requires a in keys && b in keys && a != b && host.localeCompare(a, b) <= 0
    ensures host.localeCompare(a, b) < 0
  {
    assert IsDay(keys, a) && IsDay(keys, b);
  }

  /** No day appears twice in the series, whatever `localeCompare` does. */
  lemma SeriesDistinctDates(users: seq<User>, startDate: Option<string>, endDate: Option<string>, host: Host, now: int)
    requires EventsDefined(users)
    ensures var r := TimeSeriesOf(users, startDate, endDate, host, now);
            forall i, j :: 0 <= i < j < |r| ==> r[i].date != r[j].date
  {
    var m := Buckets(users, startDate, endDate, host, now);
    BucketsShape(users, startDate, endDate, host, now);
    ValuesDistinctDates(m);
    SortDistinct(Values(m), ByDate(host), BucketDate);
  }

  /**
    When `localeCompare` orders the series' days totally, the series is
    strictly ascending by date.
  */
  lemma SeriesAscending(users: seq<User>, startDate: Option<string>, endDate: Option<string>, host: Host, now: int)
    requires EventsDefined(users)
    requires LocaleOrderOn(host, PrefilledDays(startDate, endDate, host, now) + TallyDays(Tallies(users, host)))
    ensures Ascending(TimeSeriesOf(users, startDate, endDate, host, now), host)
  {
    var m := Buckets(users, startDate, endDate, host, now);
    BucketsShape(users, startDate, endDate, host, now);
    SortByDateAscending(m, host);
  }

  /** The instant an event is dated by: `new Date(e.purchased_at_ms || e.date || e.createdAt)`, `None` when invalid. */
  function EventTime(e: Value, host: Host): Option<int>
    requires !IsNullish(e)
  {
    NewDate(Or(Or(Prop(e, "purchased_at_ms"), Prop(e, "date")), Prop(e, "createdAt")), host)
  }

  /** The smallest valid event instant, kept as the events are visited in order; `None` when there is none. */
  function EarliestTime(events: seq<Value>, host: Host): Option<int>
    requires forall e :: e in events ==> !IsNullish(e)
  {
    if events == [] then None
    else
      var init := events[..|events| - 1];
      assert forall e :: e in init ==> e in events;
      var prev := EarliestTime(init, host);
      var t := EventTime(events[|events| - 1], host);
      if t.Some? && (prev.None? || t.value < prev.value) then t else prev
  }

  /** `getEarliestEventDate(events)` as a value; `None` stands for a missing list. */
  function EarliestEventDateOf(events: Option<seq<Value>>, host: Host): Option<string>
    requires events.Some? ==> forall e :: e in events.value ==> !IsNullish(e)
  {
    if events.None? || events.value == [] then None
    else
      var earliest := EarliestTime(events.value, host);
      if earliest.None? then None else Some(DayKey(earliest.value, host))
  }

  /** `getEarliestEventDate(events)`. */
  method GetEarliestEventDate(events: Option<seq<Value>>, host: Host) returns (r: Option<string>)
    requires events.Some? ==> forall e :: e in events.value ==> !IsNullish(e)
    ensures r == EarliestEventDateOf(events, host)
  {
    if events.None? || |events.value| == 0 {
      return None;
    }
    var es := events.value;
    var earliest: Option<int> := None;
    for i := 0 to |es|
      invariant earliest == EarliestTime(es[..i], host)
    {
      assert es[..i + 1][..i] == es[..i];
      assert es[i] in es;
      var e := es[i];
      var val := Or(Or(Prop(e, "purchased_at_ms"), Prop(e, "date")), Prop(e, "createdAt"));
      var d := NewDate(val, host);
      if d.Some? {
        var ts := d.value;
        if earliest.None? || ts < earliest.value {
          earliest := Some(ts);
        }
      }
    }
    assert es[..|es|] == es;
    if earliest.None? {
      return None;
    }
    r := Some(DayKey(earliest.value, host));
  }

  /**
    The earliest instant is missing exactly when no event has a valid one;
    otherwise it is the instant of some event and no valid instant is smaller.
  */
  lemma EarliestTimeIsMinimum(events: seq<Value>, host: Host)
    requires forall e :: e in events ==> !IsNullish(e)
    ensures EarliestTime(events, host).None? <==> forall i :: 0 <= i < |events| ==> EventTime(events[i], host).None?
    ensures EarliestTime(events, host).Some? ==>
              (exists i :: 0 <= i < |events| && EventTime(events[i], host) == EarliestTime(events, host))
              && forall j :: 0 <= j < |events| && EventTime(events[j], host).Some?
                   ==> EarliestTime(events, host).value <= EventTime(events[j], host).value
  {
    EarliestTimeMissing(events, host);
    EarliestTimeAttained(events, host);
    EarliestTimeBelow(events, host);
  }

  lemma {:induction false} EarliestTimeMissing(events: seq<Value>, host: Host)
    requires forall e :: e in events ==> !IsNullish(e)
    ensures EarliestTime(events, host).None? <==> forall i :: 0 <= i < |events| ==> EventTime(events[i], host).None?
  {
    if events != [] {
      var init := events[..|events| - 1];
      assert forall e :: e in init ==> e in events;
      EarliestTimeMissing(init, host);
      assert forall j :: 0 <= j < |init| ==> init[j] == events[j];
    }
  }

  lemma {:induction false} EarliestTimeAttained(events: seq<Value>, host: Host)
    requires forall e :: e in events ==> !IsNullish(e)
    ensures EarliestTime(events, host).Some? ==>
              exists i :: 0 <= i < |events| && EventTime(events[i], host) == EarliestTime(events, host)
  {
    if events != [] {
      var init := events[..|events| - 1];
      assert forall e :: e in init ==> e in events;
      EarliestTimeAttained(init, host);
      var prev := EarliestTime(init, host);
      if EarliestTime(events, host) == prev && prev.Some? {
        var k :| 0 <= k < |init| && EventTime(init[k], host) == prev;
        assert init[k] == events[k];
      }
    }
  }

  lemma {:induction false} EarliestTimeBelow(events: seq<Value>, host: Host)
    requires forall e :: e in events ==> !IsNullish(e)
    ensures EarliestTime(events, host).Some? ==>
              forall j :: 0 <= j < |events| && EventTime(events[j], host).Some?
                ==> EarliestTime(events, host).value <= EventTime(events[j], host).value
  {
    if events != [] {
      var init := events[..|events| - 1];
      assert forall e :: e in init ==> e in events;
      EarliestTimeBelow(init, host);
      EarliestTimeMissing(init, host);
      var r := EarliestTime(events, host);
      forall j | 0 <= j < |events| - 1 && r.Some? && EventTime(events[j], host).Some?
        ensures r.value <= EventTime(events[j], host).value
      {
        assert init[j] == events[j];
      }
    }
  }

  /** The earliest event date is the day of the smallest valid event instant, and missing when there is none. */
  lemma EarliestEventDateIsMinimum(events: seq<Value>, host: Host)
    requires forall e :: e in events ==> !IsNullish(e)
    ensures EarliestEventDateOf(Some(events), host).None?
            <==> forall i :: 0 <= i < |events| ==> EventTime(events[i], host).None?
    ensures EarliestEventDateOf(Some(events), host).Some? ==>
              exists i :: 0 <= i < |events| && EventTime(events[i], host).Some?
                && EarliestEventDateOf(Some(events), host) == Some(DayKey(EventTime(events[i], host).value, host))
                && forall j :: 0 <= j < |events| && EventTime(events[j], host).Some?
                     ==> EventTime(events[i], host).value <= EventTime(events[j], host).value
  {
    EarliestTimeIsMinimum(events, host);
  }
}
