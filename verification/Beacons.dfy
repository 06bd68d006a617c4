/** Periodic connections: rule R004 (src/detection_engine.py:576-620). */
module Beacons {
  import opened Prelude
  import opened EventSchema
  import opened Rules
  import opened Grouping

  const MIN_EVENTS := 4
  const TOLERANCE := 5
  const MAX_INTERVAL := 120
  const MICROSECONDS_PER_SECOND := 1_000_000

  datatype GroupKey = GroupKey(host: string, process: string, destination: string)

  function Destination(lib: Library, event: Event): string {
    var domain := EventDomain(lib, event.fields);
    if domain != "" then domain else PickText(lib, event.fields, ["dst_ip"])
  }

  function Process(lib: Library, event: Event): string {
    if FirstTruthy(event.fields, ["process_name"]).None? then "unknown"
      else PickText(lib, event.fields, ["process_name"])
  }

  function KeyOf(lib: Library): Event -> Option<GroupKey> {
    (event: Event) =>
      if event.kind == "network_connection" && Destination(lib, event) != ""
      then Some(GroupKey(event.host, Process(lib, event), Destination(lib, event)))
      else None
  }

  // ---------------------------------------------------------------- the verdict on one series of times

  /** Whole seconds between consecutive times. */
  function Gaps(times: seq<int>): seq<int> {
    if |times| < 2 then []
    else seq(|times| - 1, i requires 0 <= i < |times| - 1 => (times[i + 1] - times[i]) / MICROSECONDS_PER_SECOND)
  }

  function Count(gaps: seq<int>, gap: int): nat { multiset(gaps)[gap] }

  /** The first gap with the highest count among the first n. */
  function Leading(gaps: seq<int>, n: nat): int
    requires 0 < n <= |gaps|
  {
    if n == 1 then gaps[0]
    else
      var best := Leading(gaps, n - 1);
      if Count(gaps, gaps[n - 1]) > Count(gaps, best) then gaps[n - 1] else best
  }

  predicate Near(gap: int, interval: int) { -TOLERANCE <= gap - interval <= TOLERANCE }

  function CountNear(gaps: seq<int>, interval: int): nat {
    if gaps == [] then 0
    else CountNear(gaps[..|gaps| - 1], interval) + (if Near(gaps[|gaps| - 1], interval) then 1 else 0)
  }

  function Verdict(times: seq<int>): Option<Beacon> {
    var gaps := Gaps(times);
    if gaps == [] then None
    else
      var interval := Leading(gaps, |gaps|);
      var regular := CountNear(gaps, interval);
      if Count(gaps, interval) >= 2 && regular >= MIN_EVENTS - 1 && interval <= MAX_INTERVAL
      then Some(Beacon(interval, regular, |times|))
      else None
  }

  /** gap is the mode: none is more frequent, and those as frequent appear later. */
  ghost predicate IsMode(gaps: seq<int>, gap: int) {
    exists i :: 0 <= i < |gaps| && gaps[i] == gap && FirstBest(gaps, i)
  }

  ghost predicate FirstBest(gaps: seq<int>, i: nat)
    requires i < |gaps|
  {
    && (forall k :: 0 <= k < |gaps| ==> Count(gaps, gaps[k]) <= Count(gaps, gaps[i]))
    && (forall k :: 0 <= k < i ==> Count(gaps, gaps[k]) < Count(gaps, gaps[i]))
  }

  lemma {:induction false} LeadingBest(gaps: seq<int>, n: nat) returns (i: nat)
    requires 0 < n <= |gaps|
    ensures i < n && gaps[i] == Leading(gaps, n)
    ensures forall k :: 0 <= k < n ==> Count(gaps, gaps[k]) <= Count(gaps, gaps[i])
    ensures forall k :: 0 <= k < i ==> Count(gaps, gaps[k]) < Count(gaps, gaps[i])
  {
    if n == 1 {
      i := 0;
    } else {
      i := LeadingBest(gaps, n - 1);
      if Count(gaps, gaps[n - 1]) > Count(gaps, gaps[i]) {
        i := n - 1;
      }
    }
  }

  lemma {:induction false} CountNearIsCount(gaps: seq<int>, interval: int)
    ensures CountNear(gaps, interval) == |set i | 0 <= i < |gaps| && Near(gaps[i], interval)|
  {
    if gaps != [] {
      var n := |gaps| - 1;
      CountNearIsCount(gaps[..n], interval);
      var front := set i | 0 <= i < n && Near(gaps[..n][i], interval);
      var all := set i | 0 <= i < |gaps| && Near(gaps[i], interval);
      assert all == front + (if Near(gaps[n], interval) then {n} else {});
    }
  }

  /** What makes a series periodic, in terms of its gaps. */
  ghost predicate Periodic(gaps: seq<int>, interval: int) {
    && IsMode(gaps, interval)
    && Count(gaps, interval) >= 2
    && |set i | 0 <= i < |gaps| && Near(gaps[i], interval)| >= 3
    && interval <= MAX_INTERVAL
  }

  /** The scan reports an interval exactly when the series is periodic with that interval. */
  lemma VerdictIff(times: seq<int>, interval: int)
    ensures (Verdict(times).Some? && Verdict(times).value.interval == interval) <==> Periodic(Gaps(times), interval)
    ensures Verdict(times).Some? ==>
      var (gaps, found) := (Gaps(times), Verdict(times).value);
      found.regular == |set i | 0 <= i < |gaps| && Near(gaps[i], found.interval)|
  {
    var gaps := Gaps(times);
    if gaps != [] {
      var best := LeadingBest(gaps, |gaps|);
      CountNearIsCount(gaps, Leading(gaps, |gaps|));
      assert FirstBest(gaps, best);
      if Periodic(gaps, interval) {
        var i :| 0 <= i < |gaps| && gaps[i] == interval && FirstBest(gaps, i);
        assert i == best;
      }
    }
  }

  // ---------------------------------------------------------------- reordering and shifting

  function IntLe(): (int, int) -> bool { (a: int, b: int) => a <= b }

  function TimeLe(): (Event, Event) -> bool { (a: Event, b: Event) => a.time <= b.time }

  function TimeOf(): Event -> int { (event: Event) => event.time }

  function IdOfEvent(): Event -> string { (event: Event) => event.id }

  function SeriesVerdict(times: seq<int>): Option<Beacon> { Verdict(SortBy(times, IntLe())) }

  /** A key-preserving map commutes with the stable sort. */
  lemma {:induction false} InsertMap<S, T>(x: S, xs: seq<S>, le: (S, S) -> bool, le': (T, T) -> bool, f: S -> T)
    requires forall y <- xs :: le(y, x) == le'(f(y), f(x))
    ensures Insert(f(x), Map(xs, f), le') == Map(Insert(x, xs, le), f)
  {
    if xs != [] {
      var ys := Map(xs, f);
      assert ys[1..] == Map(xs[1..], f);
      assert le(xs[0], x) == le'(f(xs[0]), f(x));
      if le(xs[0], x) {
        InsertMap(x, xs[1..], le, le', f);
        assert Map([xs[0]] + Insert(x, xs[1..], le), f) == [f(xs[0])] + Map(Insert(x, xs[1..], le), f);
      } else {
        assert Map([x] + xs, f) == [f(x)] + ys;
      }
    }
  }

  lemma {:induction false} SortByMap<S(!new), T>(xs: seq<S>, le: (S, S) -> bool, le': (T, T) -> bool, f: S -> T)
    requires forall x, y :: le(x, y) == le'(f(x), f(y))
    ensures SortBy(Map(xs, f), le') == Map(SortBy(xs, le), f)
  {
    if xs != [] {
      var n := |xs| - 1;
      SortByMap(xs[..n], le, le', f);
      assert Map(xs, f)[..n] == Map(xs[..n], f);
      InsertMap(xs[n], SortBy(xs[..n], le), le, le', f);
    }
  }

  function Shifted(times: seq<int>, offset: int): seq<int> { Map(times, (t: int) => t + offset) }

  lemma GapsShifted(times: seq<int>, offset: int)
    ensures Gaps(Shifted(times, offset)) == Gaps(times)
  {
  }

  lemma IntLeOrder()
    ensures TotalPreorder(IntLe())
  {
  }

  /**
   * The verdict, its interval and its regular count depend only on the collection of times, and not on their
   * origin.
   */
  lemma SeriesVerdictInvariant(times: seq<int>, times': seq<int>, offset: int)
    requires multiset(times') == multiset(times)
    ensures SeriesVerdict(times') == SeriesVerdict(times)
    ensures SeriesVerdict(Shifted(times, offset)) == SeriesVerdict(times)
  {
    IntLeOrder();
    SortByCorrect(times, IntLe());
    SortByCorrect(times', IntLe());
    SortedUnique(SortBy(times, IntLe()), SortBy(times', IntLe()), IntLe());
    SortByMap(times, IntLe(), IntLe(), (t: int) => t + offset);
    GapsShifted(SortBy(times, IntLe()), offset);
  }

  // ---------------------------------------------------------------- the verdict on an even series

  function Even(start: int, step: int, n: nat): seq<int> {
    seq(n, t requires 0 <= t < n => start + step * t * MICROSECONDS_PER_SECOND)
  }

  lemma EvenSorted(start: int, step: nat, n: nat)
    ensures Sorted(Even(start, step, n), IntLe())
  {
    forall i, j | 0 <= i < j < n
      ensures step * i <= step * j
    {
      assert step * j == step * i + step * (j - i);
    }
  }

  lemma EvenGaps(start: int, step: nat, n: nat)
    requires n >= 2
    ensures Gaps(Even(start, step, n)) == seq(n - 1, i => step)
  {
    var times := Even(start, step, n);
    forall i | 0 <= i < n - 1
      ensures Gaps(times)[i] == step
    {
      assert step * (i + 1) == step * i + step;
      assert times[i + 1] - times[i] == step * MICROSECONDS_PER_SECOND;
    }
  }

  lemma {:induction false} ConstantCounts(n: nat, step: int)
    ensures Count(seq(n, i => step), step) == n && CountNear(seq(n, i => step), step) == n
  {
    var gaps := seq(n, i => step);
    if n > 0 {
      ConstantCounts(n - 1, step);
      assert gaps[..n - 1] == seq(n - 1, i => step);
      assert gaps == gaps[..n - 1] + [step];
    }
  }

  lemma {:induction false} ConstantLeading(n: nat, step: int, k: nat)
    requires 0 < k <= n
    ensures Leading(seq(n, i => step), k) == step
  {
    if k > 1 {
      ConstantLeading(n, step, k - 1);
    }
  }

  /** An even series of at least four times is a beacon exactly when its step is at most two minutes. */
  lemma EvenVerdict(start: int, step: nat, n: nat)
    requires n >= 4
    ensures SeriesVerdict(Even(start, step, n)) == if step <= MAX_INTERVAL then Some(Beacon(step, n - 1, n)) else None
  {
    EvenSorted(start, step, n);
    SortByIdentity(Even(start, step, n), IntLe());
    EvenGaps(start, step, n);
    ConstantCounts(n - 1, step);
    ConstantLeading(n - 1, step, n - 1);
  }

  // ---------------------------------------------------------------- alerts

  function BeaconAlert(key: GroupKey, group: seq<Event>): seq<Alert> {
    if |group| < MIN_EVENTS then []
    else
      var series := SortBy(group, TimeLe());
      var verdict := Verdict(Map(series, TimeOf()));
      if verdict.None? then [] else [NewAlert(R004, key.host, Map(series, IdOfEvent()), verdict)]
  }

  function GroupAlert(events: seq<Event>, key: Event -> Option<GroupKey>): GroupKey -> seq<Alert> {
    (k: GroupKey) => BeaconAlert(k, Members(events, key, k))
  }

  function BeaconAlerts(lib: Library, events: seq<Event>): seq<Alert> {
    FlatMap(Keys(events, KeyOf(lib)), GroupAlert(events, KeyOf(lib)))
  }

  method DetectBeaconing(lib: Library, events: seq<Event>) returns (alerts: seq<Alert>)
    ensures alerts == BeaconAlerts(lib, events)
  {
    var key := KeyOf(lib);
    var order, groups := GroupBy(events, key);
    alerts := [];
    ghost var f := GroupAlert(events, key);
    for i := 0 to |order|
      invariant alerts == FlatMap(order[..i], f)
    {
      FlatMapStep(order, i, f);
      var k := order[i];
      var group := groups[k];
      assert f(k) == BeaconAlert(k, group);
      if |group| >= MIN_EVENTS {
        var series := SortBy(group, TimeLe());
        var verdict := Verdict(Map(series, TimeOf()));
        if verdict.Some? {
          alerts := alerts + [NewAlert(R004, k.host, Map(series, IdOfEvent()), verdict)];
        }
      }
    }
    TakeAll(order);
  }

  /** The group's events, in any order, have the verdict's times. */
  lemma GroupSeries(group: seq<Event>)
    ensures Verdict(Map(SortBy(group, TimeLe()), TimeOf())) == SeriesVerdict(Map(group, TimeOf()))
    ensures multiset(Map(SortBy(group, TimeLe()), IdOfEvent())) == multiset(Map(group, IdOfEvent()))
  {
    SortByMap(group, TimeLe(), IntLe(), TimeOf());
    assert TotalPreorder(TimeLe());
    SortByCorrect(group, TimeLe());
    MapPermuted(SortBy(group, TimeLe()), group, IdOfEvent());
  }

  /** alert is the R004 alert of the group with key k. */
  ghost predicate ReportsGroup(lib: Library, events: seq<Event>, k: GroupKey, alert: Alert) {
    var group := Members(events, KeyOf(lib), k);
    && |group| >= MIN_EVENTS
    && SeriesVerdict(Map(group, TimeOf())).Some?
    && alert.beacon == SeriesVerdict(Map(group, TimeOf()))
    && multiset(alert.eventIds) == multiset(Map(group, IdOfEvent()))
    && alert.rule == R004 && alert.host == k.host
  }

  ghost predicate ReportsSome(lib: Library, events: seq<Event>, alert: Alert) {
    exists k <- Keys(events, KeyOf(lib)) :: ReportsGroup(lib, events, k, alert)
  }

  lemma AlertReportsGroup(lib: Library, events: seq<Event>, k: GroupKey, alert: Alert)
    requires alert in GroupAlert(events, KeyOf(lib))(k)
    ensures ReportsGroup(lib, events, k, alert)
  {
    GroupSeries(Members(events, KeyOf(lib), k));
  }

  /** Every R004 alert reports one whole group of at least four connections. */
  lemma BeaconAlertsSound(lib: Library, events: seq<Event>, alert: Alert)
    requires alert in BeaconAlerts(lib, events)
    ensures ReportsSome(lib, events, alert)
  {
    var keys, f := Keys(events, KeyOf(lib)), GroupAlert(events, KeyOf(lib));
    FlatMapIff(keys, f, alert);
    var i :| 0 <= i < |keys| && alert in f(keys[i]);
    AlertReportsGroup(lib, events, keys[i], alert);
  }

  /** The alert names an event of the group. */
  ghost predicate NamesGroup(lib: Library, events: seq<Event>, k: GroupKey, alert: Alert) {
    exists event <- Members(events, KeyOf(lib), k) :: event.id in alert.eventIds
  }

  /** What a reader of the R004 alerts sees of a group: some alert names one of its events. */
  ghost predicate Reported(lib: Library, events: seq<Event>, k: GroupKey) {
    exists alert <- BeaconAlerts(lib, events) :: NamesGroup(lib, events, k, alert)
  }

  /** A group of at least four connections whose times are a beacon. */
  predicate PeriodicGroup(lib: Library, events: seq<Event>, k: GroupKey) {
    var group := Members(events, KeyOf(lib), k);
    |group| >= MIN_EVENTS && SeriesVerdict(Map(group, TimeOf())).Some?
  }

  lemma SameIdSameEvent(events: seq<Event>, x: Event, y: Event)
    requires Distinct(Map(events, IdOfEvent())) && x in events && y in events && x.id == y.id
    ensures x == y
  {
    var ids := Map(events, IdOfEvent());
    var i :| 0 <= i < |events| && events[i] == x;
    var j :| 0 <= j < |events| && events[j] == y;
    assert ids[i] == ids[j];
  }

  /** With different ids, an alert that names an event of a group is the alert of that group. */
  lemma NamedGroup(lib: Library, events: seq<Event>, k: GroupKey, alert: Alert)
    requires Distinct(Map(events, IdOfEvent())) && alert in BeaconAlerts(lib, events)
      && NamesGroup(lib, events, k, alert)
    ensures ReportsGroup(lib, events, k, alert)
  {
    BeaconAlertsSound(lib, events, alert);
    var other :| other in Keys(events, KeyOf(lib)) && ReportsGroup(lib, events, other, alert);
    var group := Members(events, KeyOf(lib), other);
    var event :| event in Members(events, KeyOf(lib), k) && event.id in alert.eventIds;
    var twin := NamedMember(group, alert.eventIds, event.id);
    MembersIff(events, KeyOf(lib), k, event);
    MembersIff(events, KeyOf(lib), other, twin);
    SameIdSameEvent(events, event, twin);
  }

  lemma NamedMember(group: seq<Event>, ids: seq<string>, id: string) returns (member: Event)
    requires multiset(ids) == multiset(Map(group, IdOfEvent())) && id in ids
    ensures member in group && member.id == id
  {
    var named := Map(group, IdOfEvent());
    assert id in multiset(ids) && id in named;
    var i :| 0 <= i < |named| && named[i] == id;
    member := group[i];
  }

  lemma GroupKeySeen(lib: Library, events: seq<Event>, k: GroupKey)
    requires Members(events, KeyOf(lib), k) != []
    ensures k in Keys(events, KeyOf(lib))
  {
    if k !in Keys(events, KeyOf(lib)) {
      NoMembers(events, KeyOf(lib), k);
    }
  }

  lemma GroupGetsAlert(lib: Library, events: seq<Event>, k: GroupKey) returns (alert: Alert)
    requires PeriodicGroup(lib, events, k)
    ensures alert in BeaconAlerts(lib, events) && ReportsGroup(lib, events, k, alert)
  {
    var group := Members(events, KeyOf(lib), k);
    GroupSeries(group);
    alert := BeaconAlert(k, group)[0];
    GroupKeySeen(lib, events, k);
    FlatMapIff(Keys(events, KeyOf(lib)), GroupAlert(events, KeyOf(lib)), alert);
    AlertReportsGroup(lib, events, k, alert);
  }

  lemma AlertNamesGroup(lib: Library, events: seq<Event>, k: GroupKey, alert: Alert)
    requires ReportsGroup(lib, events, k, alert)
    ensures NamesGroup(lib, events, k, alert)
  {
    var group := Members(events, KeyOf(lib), k);
    var named := Map(group, IdOfEvent());
    assert group[0].id == named[0] && named[0] in multiset(named);
  }

  /** A group's event is named by an alert exactly when the group is large enough and its series is periodic. */
  lemma ReportedIff(lib: Library, events: seq<Event>, k: GroupKey)
    requires Distinct(Map(events, IdOfEvent()))
    ensures Reported(lib, events, k) <==> PeriodicGroup(lib, events, k)
  {
    if PeriodicGroup(lib, events, k) {
      var alert := GroupGetsAlert(lib, events, k);
      AlertNamesGroup(lib, events, k, alert);
    }
    if Reported(lib, events, k) {
      var alert :| alert in BeaconAlerts(lib, events) && NamesGroup(lib, events, k, alert);
      NamedGroup(lib, events, k, alert);
    }
  }
}
