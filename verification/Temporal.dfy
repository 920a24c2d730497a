/** Temporal grouping (correlate/correlation/temporal.py): each service's events, in time
    order, cut greedily into windows. */
module Temporal {
  import opened Wrappers
  import opened Sorting
  import opened Dedup

  predicate EarlierEvent(a: Event, b: Event) { a.time < b.time }

  /** `signals` are the group's events in time order. */
  datatype Group = Group(service: string, events: seq<Event>)

  // ---------- one service ----------

  /** The greedy cut of time-ordered events, given the window being filled. */
  function Cut(current: seq<Event>, rest: seq<Event>, width: int): seq<seq<Event>>
    requires |current| > 0
    decreases |rest|
  {
    if |rest| == 0 then [current]
    else if rest[0].time - current[0].time <= width then Cut(current + [rest[0]], rest[1..], width)
    else [current] + Cut([rest[0]], rest[1..], width)
  }

  /** The windows of one service's events. */
  function Windows(events: seq<Event>, width: int): seq<seq<Event>> {
    if |events| == 0 then [] else Cut([events[0]], events[1..], width)
  }

  function OfService(events: seq<Event>, service: string): seq<Event> {
    if |events| == 0 then []
    else OfService(events[..|events| - 1], service) +
         if events[|events| - 1].service == service then [events[|events| - 1]] else []
  }

  /** The services of `events` in order of first occurrence. */
  function Services(events: seq<Event>): seq<string> {
    if |events| == 0 then []
    else
      var front, s := Services(events[..|events| - 1]), events[|events| - 1].service;
      if s in front then front else front + [s]
  }

  function Labelled(service: string, windows: seq<seq<Event>>): seq<Group> {
    seq(|windows|, i requires 0 <= i < |windows| => Group(service, windows[i]))
  }

  function GroupsOf(sorted: seq<Event>, services: seq<string>, width: int): seq<Group> {
    if |services| == 0 then []
    else
      var n := |services| - 1;
      GroupsOf(sorted, services[..n], width) + Labelled(services[n], Windows(OfService(sorted, services[n]), width))
  }

  /** `group_temporal` with its window in seconds. */
  method GroupTemporal(events: seq<Event>, width: int) returns (groups: seq<Group>)
    ensures var sorted := Sort(events, EarlierEvent); groups == GroupsOf(sorted, Services(sorted), width)
  {
    var sorted := Sort(events, EarlierEvent);
    var services, byService := PartitionByService(sorted);
    groups := [];
    for i := 0 to |services|
      invariant groups == GroupsOf(sorted, services[..i], width)
    {
      assert services[..i + 1][..i] == services[..i];
      assert services[i] in services;
      var windows := SplitWindows(byService[services[i]], width);
      groups := groups + Labelled(services[i], windows);
    }
    assert services[..|services|] == services;
  }

  method PartitionByService(sorted: seq<Event>) returns (services: seq<string>, byService: map<string, seq<Event>>)
    ensures services == Services(sorted)
    ensures forall s :: s in services ==> s in byService && byService[s] == OfService(sorted, s) && byService[s] != []
  {
    hide Services, OfService;
    services, byService := [], map[];
    NoEvents();
    for i := 0 to |sorted|
      invariant services == Services(sorted[..i]) && (forall s :: s in services <==> s in byService)
      invariant forall s :: EventsAt(byService, s) == OfService(sorted[..i], s)
      invariant forall s :: s in byService ==> byService[s] != []
    {
      OneMoreEvent(sorted, i);
      var s := sorted[i].service;
      if s !in byService { services := services + [s]; }
      ghost var before := byService;
      byService := byService[s := EventsAt(byService, s) + [sorted[i]]];
      assert forall k :: EventsAt(byService, k) == if k == s then EventsAt(before, k) + [sorted[i]]
             else EventsAt(before, k);
    }
    assert sorted[..|sorted|] == sorted;
    forall s | s in services
      ensures byService[s] == OfService(sorted, s)
    {
      assert EventsAt(byService, s) == OfService(sorted, s);
    }
  }

  function EventsAt(byService: map<string, seq<Event>>, s: string): seq<Event> {
    if s in byService then byService[s] else []
  }

  lemma NoEvents()
    ensures Services([]) == [] && forall s :: OfService([], s) == []
  {
  }

  lemma OneMoreEvent(sorted: seq<Event>, i: nat)
    requires i < |sorted|
    ensures var before, e := sorted[..i], sorted[i];
            && Services(sorted[..i + 1]) ==
              (if e.service in Services(before) then Services(before) else Services(before) + [e.service])
            && forall s ::
                 OfService(sorted[..i + 1], s) == OfService(before, s) + if e.service == s then [e] else []
  {
    assert sorted[..i + 1][..i] == sorted[..i];
  }

  method SplitWindows(events: seq<Event>, width: int) returns (windows: seq<seq<Event>>)
    requires |events| > 0
    ensures windows == Windows(events, width)
  {
    windows := [];
    var current := [events[0]];
    var start := events[0].time;
    for i := 1 to |events|
      invariant |current| > 0 && start == current[0].time
      invariant Windows(events, width) == windows + Cut(current, events[i..], width)
    {
      assert events[i..][0] == events[i] && events[i..][1..] == events[i + 1..];
      if events[i].time - start <= width {
        current := current + [events[i]];
      } else {
        assert windows + ([current] + Cut([events[i]], events[i + 1..], width))
               == (windows + [current]) + Cut([events[i]], events[i + 1..], width);
        windows := windows + [current];
        current := [events[i]];
        start := events[i].time;
      }
    }
    assert events[|events|..] == [];
    windows := windows + [current];
  }

  // ---------- laws ----------

  predicate TimeOrdered(events: seq<Event>) {
    forall i, j :: 0 <= i < j < |events| ==> events[i].time <= events[j].time
  }

  function Flat(windows: seq<seq<Event>>): seq<Event> { if |windows| == 0 then [] else windows[0] + Flat(windows[1..]) }

  /** A window is not empty and spans at most `width`. */
  predicate Fits(window: seq<Event>, width: int) {
    |window| > 0 && forall i, j :: 0 <= i < |window| && 0 <= j < |window| ==> window[i].time - window[j].time <= width
  }

  /** MAIN: the windows are the events in order, cut and nothing else, and each fits. */
  lemma WindowsPartition(events: seq<Event>, width: int)
    requires TimeOrdered(events) && width >= 0
    ensures Flat(Windows(events, width)) == events
    ensures forall w :: 0 <= w < |Windows(events, width)| ==> Fits(Windows(events, width)[w], width)
  {
    if |events| > 0 {
      assert events == [events[0]] + events[1..];
      CutPartitions([events[0]], events[1..], width);
    }
  }

  lemma {:induction false} CutPartitions(current: seq<Event>, rest: seq<Event>, width: int)
    requires |current| > 0 && TimeOrdered(current + rest) && width >= 0
    requires current[|current| - 1].time - current[0].time <= width
    ensures Flat(Cut(current, rest, width)) == current + rest
    ensures forall w :: 0 <= w < |Cut(current, rest, width)| ==> Fits(Cut(current, rest, width)[w], width)
    decreases |rest|
  {
    OrderedFits(current, rest, width);
    if |rest| == 0 {
      assert Flat([current]) == current + Flat([]) == current;
    } else if rest[0].time - current[0].time <= width {
      assert (current + [rest[0]]) + rest[1..] == current + rest;
      CutPartitions(current + [rest[0]], rest[1..], width);
    } else {
      assert rest == [rest[0]] + rest[1..];
      TailOrdered(current, rest);
      CutPartitions([rest[0]], rest[1..], width);
      assert Cut(current, rest, width)[1..] == Cut([rest[0]], rest[1..], width);
    }
  }

  lemma OrderedFits(current: seq<Event>, rest: seq<Event>, width: int)
    requires |current| > 0 && TimeOrdered(current + rest) && width >= 0
    requires current[|current| - 1].time - current[0].time <= width
    ensures Fits(current, width)
  {
    var all := current + rest;
    forall i, j | 0 <= i < |current| && 0 <= j < |current|
      ensures current[i].time - current[j].time <= width
    {
      assert all[i] == current[i] && all[j] == current[j] && all[0] == current[0] &&
             all[|current| - 1] == current[|current| - 1];
      assert all[i].time <= all[|current| - 1].time && all[0].time <= all[j].time;
    }
  }

  lemma TailOrdered(a: seq<Event>, b: seq<Event>)
    requires TimeOrdered(a + b)
    ensures TimeOrdered(b)
  {
    forall i, j | 0 <= i < j < |b|
      ensures b[i].time <= b[j].time
    {
      assert (a + b)[|a| + i] == b[i] && (a + b)[|a| + j] == b[j];
    }
  }

  /** The windows start more than `width` apart, the first at the first event. */
  lemma {:induction false} StartsAreApart(current: seq<Event>, rest: seq<Event>, width: int)
    requires |current| > 0 && TimeOrdered(current + rest) && width >= 0
    ensures var ws := Cut(current, rest, width);
            && |ws| > 0 && (forall w :: 0 <= w < |ws| ==> |ws[w]| > 0)
            && ws[0][0] == current[0]
            && (forall v, w :: 0 <= v < w < |ws| ==> ws[w][0].time - ws[v][0].time > width)
            && (forall w :: 0 < w < |ws| ==> ws[w][0] in rest)
    decreases |rest|
  {
    if |rest| > 0 {
      if rest[0].time - current[0].time <= width {
        assert (current + [rest[0]]) + rest[1..] == current + rest;
        StartsAreApart(current + [rest[0]], rest[1..], width);
        assert rest == [rest[0]] + rest[1..];
      } else {
        assert rest == [rest[0]] + rest[1..];
        TailOrdered(current, rest);
        StartsAreApart([rest[0]], rest[1..], width);
        var ws, tail := Cut(current, rest, width), Cut([rest[0]], rest[1..], width);
        assert ws == [current] + tail;
        forall w | 0 < w < |ws|
          ensures ws[w][0] in rest && ws[w][0].time - ws[0][0].time > width
        {
          assert ws[w] == tail[w - 1];
          if w > 1 { assert tail[w - 1][0].time - tail[0][0].time > width; }
        }
      }
    }
  }

  /** The events are put into `k` classes, each spanning at most `width`. */
  ghost predicate Splits(events: seq<Event>, classes: seq<nat>, k: nat, width: int) {
    && |classes| == |events|
    && (forall i :: 0 <= i < |events| ==> classes[i] < k)
    && (forall i, j :: 0 <= i < |events| && 0 <= j < |events| && classes[i] == classes[j] ==>
          events[i].time - events[j].time <= width)
  }

  ghost function IndexOf(events: seq<Event>, e: Event): (i: nat)
    requires e in events
    ensures i < |events| && events[i] == e
  {
    var i :| 0 <= i < |events| && events[i] == e; i
  }

  /** MAIN: no split into sets of span at most `width` has fewer parts than the greedy
      windows. */
  lemma FewestWindows(events: seq<Event>, width: int, classes: seq<nat>, k: nat)
    requires TimeOrdered(events) && width >= 0 && Splits(events, classes, k, width)
    ensures |Windows(events, width)| <= k
  {
    if |events| > 0 {
      assert events == [events[0]] + events[1..];
      StartsAreApart([events[0]], events[1..], width);
      var ws := Windows(events, width);
      assert forall w :: 0 <= w < |ws| ==> ws[w][0] in events;
      var starts := seq(|ws|, w requires 0 <= w < |ws| => IndexOf(events, ws[w][0]));
      StartsInDistinctClasses(events, width, classes, k, ws, starts);
      Pigeonhole(seq(|ws|, w requires 0 <= w < |ws| => classes[starts[w]]), k);
    }
  }

  lemma StartsInDistinctClasses(events: seq<Event>, width: int, classes: seq<nat>, k: nat, ws: seq<seq<Event>>,
                                starts: seq<nat>)
    requires Splits(events, classes, k, width) && |starts| == |ws|
    requires forall w :: 0 <= w < |ws| ==> |ws[w]| > 0 && starts[w] < |events| && events[starts[w]] == ws[w][0]
    requires forall v, w :: 0 <= v < w < |ws| ==> ws[w][0].time - ws[v][0].time > width
    ensures forall v, w :: 0 <= v < w < |ws| ==> classes[starts[v]] != classes[starts[w]]
  {
    forall v, w | 0 <= v < w < |ws|
      ensures classes[starts[v]] != classes[starts[w]]
    {
      assert ws[w][0].time - ws[v][0].time > width;
    }
  }

  /** Distinct numbers below `k` are at most `k`. */
  lemma {:induction false} Pigeonhole(xs: seq<nat>, k: nat)
    requires (forall i :: 0 <= i < |xs| ==> xs[i] < k) && (forall i, j :: 0 <= i < j < |xs| ==> xs[i] != xs[j])
    ensures |xs| <= k
  {
    if |xs| > 0 {
      assert xs[0] < k;
      if exists i :: 0 <= i < |xs| && xs[i] == k - 1 {
        var i :| 0 <= i < |xs| && xs[i] == k - 1;
        Pigeonhole(xs[..i] + xs[i + 1..], k - 1);
      } else {
        Pigeonhole(xs[1..], k - 1);
      }
    }
  }

  // ---------- all services ----------

  lemma EarlierIsWeakOrder()
    ensures WeakOrder(EarlierEvent)
  {
  }

  /** Each service's events stay in time order. */
  lemma {:induction false} ServiceInOrder(sorted: seq<Event>, service: string)
    requires TimeOrdered(sorted)
    ensures TimeOrdered(OfService(sorted, service))
    ensures forall e :: e in OfService(sorted, service) <==> e in sorted && e.service == service
  {
    if |sorted| > 0 {
      var front, last := sorted[..|sorted| - 1], sorted[|sorted| - 1];
      assert sorted == front + [last];
      ServiceInOrder(front, service);
      var f := OfService(front, service);
      forall i | 0 <= i < |f|
        ensures f[i].time <= last.time
      {
        assert f[i] in front;
        var j :| 0 <= j < |front| && front[j] == f[i];
        assert sorted[j].time <= sorted[|sorted| - 1].time;
      }
    }
  }

  /** The services come in the order in which their first events do. */
  lemma {:induction false} ServicesInOrder(events: seq<Event>, n: nat)
    requires n <= |events|
    ensures Services(events[..n]) <= Services(events)
    decreases |events|
  {
    if n < |events| {
      assert events[..|events| - 1][..n] == events[..n];
      ServicesInOrder(events[..|events| - 1], n);
    } else {
      assert events[..n] == events;
    }
  }

  lemma {:induction false} ServicesAreDistinct(events: seq<Event>)
    ensures forall i, j :: 0 <= i < j < |Services(events)| ==> Services(events)[i] != Services(events)[j]
    ensures forall e :: e in events ==> e.service in Services(events)
  {
    if |events| > 0 {
      ServicesAreDistinct(events[..|events| - 1]);
      assert events == events[..|events| - 1] + [events[|events| - 1]];
    }
  }

  /** The events of groups, with multiplicity. */
  function EventsOf(groups: seq<Group>): multiset<Event> {
    if |groups| == 0 then multiset{} else EventsOf(groups[..|groups| - 1]) + multiset(groups[|groups| - 1].events)
  }

  lemma {:induction false} EventsOfSum(a: seq<Group>, b: seq<Group>)
    ensures EventsOf(a + b) == EventsOf(a) + EventsOf(b)
    decreases |b|
  {
    if |b| == 0 {
      assert a + b == a;
    } else {
      assert (a + b)[..|a + b| - 1] == a + b[..|b| - 1];
      EventsOfSum(a, b[..|b| - 1]);
    }
  }

  lemma {:induction false} EventsOfWindows(service: string, windows: seq<seq<Event>>)
    ensures EventsOf(Labelled(service, windows)) == multiset(Flat(windows))
  {
    if |windows| > 0 {
      EventsOfWindows(service, windows[1..]);
      var all := Labelled(service, windows);
      assert all == [Group(service, windows[0])] + Labelled(service, windows[1..]);
      EventsOfSum([Group(service, windows[0])], Labelled(service, windows[1..]));
      assert EventsOf([Group(service, windows[0])]) == multiset(windows[0]) by {
        assert [Group(service, windows[0])][..0] == [];
      }
    }
  }

  function EventsFor(sorted: seq<Event>, services: seq<string>): multiset<Event> {
    if |services| == 0 then multiset{}
    else EventsFor(sorted, services[..|services| - 1]) + multiset(OfService(sorted, services[|services| - 1]))
  }

  lemma {:induction false} EventsForGrows(sorted: seq<Event>, services: seq<string>)
    requires |sorted| > 0 && forall i, j :: 0 <= i < j < |services| ==> services[i] != services[j]
    ensures EventsFor(sorted, services) == EventsFor(sorted[..|sorted| - 1], services) +
            if sorted[|sorted| - 1].service in services then multiset{sorted[|sorted| - 1]} else multiset{}
  {
    if |services| > 0 {
      EventsForGrows(sorted, services[..|services| - 1]);
      assert services == services[..|services| - 1] + [services[|services| - 1]];
    }
  }

  lemma {:induction false} EventsForAll(sorted: seq<Event>)
    ensures EventsFor(sorted, Services(sorted)) == multiset(sorted)
  {
    if |sorted| > 0 {
      var front, last := sorted[..|sorted| - 1], sorted[|sorted| - 1];
      assert sorted == front + [last];
      EventsForAll(front);
      ServicesAreDistinct(sorted);
      EventsForGrows(sorted, Services(sorted));
      if last.service !in Services(front) {
        assert Services(sorted)[..|Services(front)|] == Services(front);
        NoneOfService(front, last.service);
      }
    }
  }

  lemma {:induction false} NoneOfService(events: seq<Event>, service: string)
    requires service !in Services(events)
    ensures OfService(events, service) == []
  {
    if |events| > 0 { NoneOfService(events[..|events| - 1], service); }
  }

  /** A group is one service's, and its events fit one window. */
  predicate WellFormed(g: Group, width: int) {
    Fits(g.events, width) && forall e :: e in g.events ==> e.service == g.service
  }

  lemma {:induction false} GroupsHold(sorted: seq<Event>, services: seq<string>, width: int)
    requires TimeOrdered(sorted) && width >= 0
    ensures EventsOf(GroupsOf(sorted, services, width)) == EventsFor(sorted, services)
    ensures forall g :: g in GroupsOf(sorted, services, width) ==> WellFormed(g, width)
  {
    if |services| > 0 {
      var n := |services| - 1;
      GroupsHold(sorted, services[..n], width);
      ServiceInOrder(sorted, services[n]);
      var events := OfService(sorted, services[n]);
      WindowsPartition(events, width);
      EventsOfSum(GroupsOf(sorted, services[..n], width), Labelled(services[n], Windows(events, width)));
      EventsOfWindows(services[n], Windows(events, width));
      WindowsAreOf(events, Windows(events, width), services[n], width);
    }
  }

  lemma WindowsAreOf(events: seq<Event>, windows: seq<seq<Event>>, service: string, width: int)
    requires Flat(windows) == events && forall e :: e in events ==> e.service == service
    requires forall w :: 0 <= w < |windows| ==> Fits(windows[w], width)
    ensures forall g :: g in Labelled(service, windows) ==> WellFormed(g, width)
  {
    forall w | 0 <= w < |windows|
      ensures forall e :: e in windows[w] ==> e in events
    {
      FlatHolds(windows, w);
    }
  }

  lemma {:induction false} FlatHolds(windows: seq<seq<Event>>, w: nat)
    requires w < |windows|
    ensures forall e :: e in windows[w] ==> e in Flat(windows)
  {
    if w > 0 { FlatHolds(windows[1..], w - 1); }
  }

  /** MAIN: grouping neither loses, duplicates nor invents an event, and every group is one
      service's window. */
  lemma GroupingConserves(events: seq<Event>, width: int)
    requires width >= 0
    ensures var sorted := Sort(events, EarlierEvent);
            var groups := GroupsOf(sorted, Services(sorted), width);
            EventsOf(groups) == multiset(events) && forall g :: g in groups ==> WellFormed(g, width)
  {
    var sorted := Sort(events, EarlierEvent);
    EarlierIsWeakOrder();
    SortIsSort(events, EarlierEvent);
    assert TimeOrdered(sorted);
    GroupsHold(sorted, Services(sorted), width);
    EventsForAll(sorted);
  }
}
