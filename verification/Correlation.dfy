/** The correlation engine (correlate/correlation/engine.py: `correlate`, `assemble_groups`,
    `_compute_priority`). Topology correlations and severity scores are arbitrary. */
module Correlation {
  import opened Wrappers
  import opened Sorting
  import opened Dedup
  import opened Temporal

  /** The services a topology correlation involves: its primary and the related ones. */
  type Links = seq<set<string>>

  /** `members` are positions in the list of temporal groups. */
  datatype Correlated = Correlated(members: seq<nat>, services: set<string>, topology: Option<nat>,
                                   priority: int, peak: real, eventCount: nat)

  function PeakOf(events: seq<Event>): real {
    if |events| == 0 then 0.0
    else if |events| == 1 then events[0].severity
    else
      var front := PeakOf(events[..|events| - 1]);
      if events[|events| - 1].severity > front then events[|events| - 1].severity else front
  }

  predicate InRange(groups: seq<Group>, members: seq<nat>) { forall i :: 0 <= i < |members| ==> members[i] < |groups| }

  function PeakOver(groups: seq<Group>, members: seq<nat>): real
    requires InRange(groups, members)
  {
    if |members| == 0 then 0.0
    else if |members| == 1 then PeakOf(groups[members[0]].events)
    else
      var front, last := PeakOver(groups, members[..|members| - 1]), PeakOf(groups[members[|members| - 1]].events);
      if last > front then last else front
  }

  function EventTotal(groups: seq<Group>, members: seq<nat>): nat
    requires InRange(groups, members)
  {
    if |members| == 0 then 0
    else EventTotal(groups, members[..|members| - 1]) + |groups[members[|members| - 1]].events|
  }

  /** `critical`: the services of critical tier, when a topology is known. */
  function Priority(peak: real, services: set<string>, critical: Option<set<string>>, links: Links): int {
    if peak > 0.8 && critical.Some? && services * critical.value != {} then 0
    else if peak > 0.6 then 1
    else if critical.Some? &&
            exists t :: 0 <= t < |links| && links[t] * services != {} && links[t] * critical.value != {} then 1
    else if peak > 0.3 then 2
    else 3
  }

  ghost predicate Meets(a: set<string>, b: set<string>) { exists x :: x in a && x in b }

  /** Some service of the group is of critical tier. */
  ghost predicate IsCritical(services: set<string>, critical: Option<set<string>>) {
    critical.Some? && Meets(services, critical.value)
  }

  /** A topology correlation involves both a service of the group and one of critical tier. */
  ghost predicate NearCritical(services: set<string>, critical: Option<set<string>>, links: Links) {
    critical.Some? && exists t :: 0 <= t < |links| && Meets(links[t], services) && Meets(links[t], critical.value)
  }

  /** What each tier stands for. */
  ghost predicate InTier(tier: int, peak: real, services: set<string>, critical: Option<set<string>>, links: Links) {
    match tier
    case 0 => peak > 0.8 && IsCritical(services, critical)
    case 1 => !(peak > 0.8 && IsCritical(services, critical)) && (peak > 0.6 || NearCritical(services, critical, links))
    case 2 => 0.3 < peak <= 0.6 && !NearCritical(services, critical, links)
    case 3 => peak <= 0.3 && !NearCritical(services, critical, links)
    case _ => false
  }

  lemma PriorityMeans(peak: real, services: set<string>, critical: Option<set<string>>, links: Links, tier: int)
    ensures Priority(peak, services, critical, links) == tier <==> InTier(tier, peak, services, critical, links)
  {
    if critical.Some? {
      MeetsIff(services, critical.value);
      forall t | 0 <= t < |links|
        ensures Meets(links[t], services) <==> links[t] * services != {}
        ensures Meets(links[t], critical.value) <==> links[t] * critical.value != {}
      {
        MeetsIff(links[t], services);
        MeetsIff(links[t], critical.value);
      }
    }
  }

  lemma MeetsIff(a: set<string>, b: set<string>)
    ensures Meets(a, b) <==> a * b != {}
  {
    if x :| x in a && x in b { assert x in a * b; }
    if a * b != {} {
      var x :| x in a * b;
      assert x in a && x in b;
    }
  }

  /** A louder group never waits longer, and only a group with a critical service comes first. */
  lemma LouderIsNotLater(peak: real, louder: real, services: set<string>, critical: Option<set<string>>, links: Links)
    requires peak <= louder
    ensures 0 <= Priority(louder, services, critical, links) <= Priority(peak, services, critical, links) <= 3
    ensures Priority(peak, services, critical, links) == 0 ==>
              critical.Some? && services * critical.value != {} && peak > 0.8
  {
  }

  /** The peak is the largest severity of any event. */
  lemma {:induction false} PeakIsLargest(events: seq<Event>) returns (loudest: nat)
    requires |events| > 0
    ensures loudest < |events| && events[loudest].severity == PeakOf(events)
    ensures forall i :: 0 <= i < |events| ==> events[i].severity <= PeakOf(events)
  {
    if |events| == 1 {
      loudest := 0;
    } else {
      loudest := PeakIsLargest(events[..|events| - 1]);
      if events[|events| - 1].severity == PeakOf(events) { loudest := |events| - 1; }
    }
  }

  function GroupFor(groups: seq<Group>, members: seq<nat>, services: set<string>, topology: Option<nat>,
                    critical: Option<set<string>>, links: Links): Correlated
    requires InRange(groups, members)
  {
    var peak := PeakOver(groups, members);
    Correlated(members, services, topology, Priority(peak, services, critical, links), peak,
      EventTotal(groups, members))
  }

  // ---------- who takes which group ----------

  /** The first topology correlation that involves a service. */
  function Owner(links: Links, service: string): Option<nat> {
    if |links| == 0 then None
    else
      var front := Owner(links[..|links| - 1], service);
      if front.Some? then front else if service in links[|links| - 1] then Some(|links| - 1) else None
  }

  /** The positions among the first n groups whose owner is `owner`, in order. */
  function OwnedBy(groups: seq<Group>, links: Links, owner: Option<nat>, n: nat): seq<nat>
    requires n <= |groups|
    ensures forall i :: 0 <= i < |OwnedBy(groups, links, owner, n)| ==>
              OwnedBy(groups, links, owner, n)[i] < n &&
                Owner(links, groups[OwnedBy(groups, links, owner, n)[i]].service) == owner
  {
    if n == 0 then []
    else OwnedBy(groups, links, owner, n - 1) + if Owner(links, groups[n - 1].service) == owner then [n - 1] else []
  }

  /** The first pass: one group for each of the first t correlations that owns something. */
  function Linked(groups: seq<Group>, links: Links, critical: Option<set<string>>, t: nat): seq<Correlated>
    requires t <= |links|
  {
    if t == 0 then []
    else
      var members := OwnedBy(groups, links, Some(t - 1), |groups|);
      Linked(groups, links, critical, t - 1) +
      if members == [] then [] else [GroupFor(groups, members, links[t - 1], Some(t - 1), critical, links)]
  }

  /** The second pass: a group for each of the first n temporal groups without an owner. */
  function Unlinked(groups: seq<Group>, links: Links, critical: Option<set<string>>, n: nat): seq<Correlated>
    requires n <= |groups|
  {
    if n == 0 then []
    else Unlinked(groups, links, critical, n - 1) +
         if Owner(links, groups[n - 1].service).None?
         then [GroupFor(groups, [n - 1], {groups[n - 1].service}, None, critical, links)] else []
  }

  predicate Sooner(a: Correlated, b: Correlated) {
    a.priority < b.priority || (a.priority == b.priority && a.peak > b.peak)
  }

  function Assembled(groups: seq<Group>, links: Links, critical: Option<set<string>>): seq<Correlated> {
    Linked(groups, links, critical, |links|) + Unlinked(groups, links, critical, |groups|)
  }

  method AssembleGroups(groups: seq<Group>, links: Links, critical: Option<set<string>>)
    returns (result: seq<Correlated>)
    ensures result == Sort(Assembled(groups, links, critical), Sooner)
  {
    hide Owner, GroupFor, OwnedBy;
    var taken: set<nat> := {};
    result := [];
    TakenNone(groups, links);
    for t := 0 to |links|
      invariant result == Linked(groups, links, critical, t) && taken == TakenBy(groups, links, t)
    {
      var signals;
      signals, taken := TakeSignals(groups, links, t, taken);
      if signals != [] {
        result := result + [GroupFor(groups, signals, links[t], Some(t), critical, links)];
      }
    }
    ghost var linked := result;
    for m := 0 to |groups|
      invariant result == linked + Unlinked(groups, links, critical, m)
    {
      OwnerIsFirst(links, groups[m].service);
      if m !in taken {
        result := result + [GroupFor(groups, [m], {groups[m].service}, None, critical, links)];
      }
    }
    result := Sort(result, Sooner);
  }

  /** The inner loop of the first pass. */
  method TakeSignals(groups: seq<Group>, links: Links, t: nat, taken: set<nat>)
    returns (signals: seq<nat>, taken': set<nat>)
    requires t < |links| && taken == TakenBy(groups, links, t)
    ensures signals == OwnedBy(groups, links, Some(t), |groups|) && taken' == TakenBy(groups, links, t + 1)
  {
    hide Owner, TakenBy;
    signals, taken' := [], taken;
    for m := 0 to |groups|
      invariant signals == OwnedBy(groups, links, Some(t), m) && taken' == taken + OwnedSet(groups, links, t, m)
    {
      OwnedSetStep(groups, links, t, m);
      if groups[m].service in links[t] && m !in taken' {
        signals := signals + [m];
        taken' := taken' + {m};
      }
    }
    TakenStep(groups, links, t);
  }

  /** The positions among the first n that correlation t owns. */
  function OwnedSet(groups: seq<Group>, links: Links, t: nat, n: nat): set<nat>
    requires n <= |groups|
  {
    set m: nat | m < n && Owner(links, groups[m].service) == Some(t)
  }

  lemma OwnedSetStep(groups: seq<Group>, links: Links, t: nat, m: nat)
    requires t < |links| && m < |groups|
    ensures OwnedSet(groups, links, t, m + 1) ==
            OwnedSet(groups, links, t, m) + if Owner(links, groups[m].service) == Some(t) then {m} else {}
    ensures Owner(links, groups[m].service) == Some(t) <==>
            groups[m].service in links[t] && m !in TakenBy(groups, links, t) + OwnedSet(groups, links, t, m)
  {
    OwnerStep(links, t, groups[m].service);
  }

  /** The groups taken by the first t correlations. */
  function TakenBy(groups: seq<Group>, links: Links, t: nat): set<nat> {
    set m: nat | m < |groups| && Owner(links, groups[m].service).Some? && Owner(links, groups[m].service).value < t
  }

  lemma TakenNone(groups: seq<Group>, links: Links)
    ensures TakenBy(groups, links, 0) == {}
  {
  }

  lemma TakenStep(groups: seq<Group>, links: Links, t: nat)
    ensures TakenBy(groups, links, t + 1) == TakenBy(groups, links, t) + OwnedSet(groups, links, t, |groups|)
  {
  }

  /** A correlation gets a service exactly if it involves it and no earlier one does. */
  lemma OwnerStep(links: Links, t: nat, service: string)
    requires t < |links|
    ensures Owner(links, service) == Some(t) <==>
            service in links[t] && !(Owner(links, service).Some? && Owner(links, service).value < t)
  {
    OwnerIsFirst(links, service);
  }

  lemma {:induction false} OwnerIsFirst(links: Links, service: string)
    ensures match Owner(links, service)
            case None => forall t :: 0 <= t < |links| ==> service !in links[t]
            case Some(t) => t < |links| && service in links[t] && forall u :: 0 <= u < t ==> service !in links[u]
  {
    if |links| > 0 { OwnerIsFirst(links[..|links| - 1], service); }
  }

  /** `correlate`, given the events of the window. */
  method Correlate(events: seq<Event>, width: int, score: Event -> real, link: seq<Group> -> Links,
                   critical: Option<set<string>>)
    returns (result: seq<Correlated>)
    ensures result == CorrelationOf(events, width, score, link, critical)
  {
    if events == [] {
      assert Enriched(events, score) == [];
      return [];
    }
    var signals := Deduplicate(events);
    var enriched := [];
    for i := 0 to |signals|
      invariant |enriched| == i && forall j :: 0 <= j < i ==> enriched[j] == Rescored(signals[j].event, score)
    {
      var e, s := signals[i].event, score(signals[i].event);
      if s != e.severity { e := e.(severity := s); }
      enriched := enriched + [e];
    }
    assert enriched == Enriched(events, score);
    var groups := GroupTemporal(enriched, width);
    if groups == [] {
      return [];
    }
    result := AssembleGroups(groups, link(groups), critical);
  }

  function Rescored(e: Event, score: Event -> real): Event { e.(severity := score(e)) }

  function RescoreAll(signals: seq<Signal>, score: Event -> real): seq<Event> {
    seq(|signals|, i requires 0 <= i < |signals| => Rescored(signals[i].event, score))
  }

  /** The first event of each key, rescored. */
  function Enriched(events: seq<Event>, score: Event -> real): seq<Event> {
    RescoreAll(SignalsOf(events, Keys(events)), score)
  }

  function TemporalGroups(events: seq<Event>, width: int, score: Event -> real): seq<Group> {
    var sorted := Sort(Enriched(events, score), EarlierEvent);
    GroupsOf(sorted, Services(sorted), width)
  }

  function CorrelationOf(events: seq<Event>, width: int, score: Event -> real, link: seq<Group> -> Links,
                         critical: Option<set<string>>): seq<Correlated>
  {
    var groups := TemporalGroups(events, width, score);
    if groups == [] then [] else Sort(Assembled(groups, link(groups), critical), Sooner)
  }

  // ---------- conservation ----------

  /** The temporal groups that correlated groups are made of, with multiplicity. */
  function MembersOf(cs: seq<Correlated>): multiset<nat> {
    if |cs| == 0 then multiset{} else MembersOf(cs[..|cs| - 1]) + multiset(cs[|cs| - 1].members)
  }

  function CountOf(cs: seq<Correlated>): nat {
    if |cs| == 0 then 0 else CountOf(cs[..|cs| - 1]) + cs[|cs| - 1].eventCount
  }

  lemma {:induction false} SumsOverSum(a: seq<Correlated>, b: seq<Correlated>)
    ensures MembersOf(a + b) == MembersOf(a) + MembersOf(b) && CountOf(a + b) == CountOf(a) + CountOf(b)
    decreases |b|
  {
    if |b| == 0 {
      assert a + b == a;
    } else {
      assert (a + b)[..|a + b| - 1] == a + b[..|b| - 1];
      SumsOverSum(a, b[..|b| - 1]);
    }
  }

  lemma TakeOut(a: seq<Correlated>, k: nat)
    requires k < |a|
    ensures MembersOf(a) == MembersOf(a[..k] + a[k + 1..]) + multiset(a[k].members)
    ensures CountOf(a) == CountOf(a[..k] + a[k + 1..]) + a[k].eventCount
  {
    hide MembersOf, CountOf;
    SumsOverSum(a[..k], a[k + 1..]);
    SumsOverSum(a[..k + 1], a[k + 1..]);
    assert a == a[..k + 1] + a[k + 1..] && a[..k + 1][..k] == a[..k];
    LastOf(a[..k + 1]);
  }

  /** Reordering the groups, as the final sort does, changes neither sum. */
  lemma {:induction false} SumsIgnoreOrder(a: seq<Correlated>, b: seq<Correlated>)
    requires multiset(a) == multiset(b)
    ensures MembersOf(a) == MembersOf(b) && CountOf(a) == CountOf(b)
    decreases |b|
  {
    hide MembersOf, CountOf;
    assert |a| == |multiset(a)| == |multiset(b)| == |b|;
    if |b| == 0 {
      assert a == b;
    } else {
      var front, last := b[..|b| - 1], b[|b| - 1];
      assert b == front + [last];
      assert last in multiset(b);
      assert last in a;
      LastOf(b);
      var k :| 0 <= k < |a| && a[k] == last;
      WithoutOne(a, k, front);
      SumsIgnoreOrder(a[..k] + a[k + 1..], front);
      TakeOut(a, k);
    }
  }

  lemma LastOf(b: seq<Correlated>)
    requires |b| > 0
    ensures MembersOf(b) == MembersOf(b[..|b| - 1]) + multiset(b[|b| - 1].members)
    ensures CountOf(b) == CountOf(b[..|b| - 1]) + b[|b| - 1].eventCount
  {
  }

  lemma WithoutOne(a: seq<Correlated>, k: nat, front: seq<Correlated>)
    requires k < |a| && multiset(a) == multiset(front + [a[k]])
    ensures multiset(a[..k] + a[k + 1..]) == multiset(front)
  {
    var x, y := multiset(a[..k] + a[k + 1..]), multiset(front);
    assert a == a[..k] + [a[k]] + a[k + 1..];
    assert multiset(a) == x + multiset{a[k]} && multiset(front + [a[k]]) == y + multiset{a[k]};
    assert x == (x + multiset{a[k]}) - multiset{a[k]} && y == (y + multiset{a[k]}) - multiset{a[k]};
  }

  function Indicator(b: bool): nat { if b then 1 else 0 }

  lemma {:induction false} OwnedOnce(groups: seq<Group>, links: Links, owner: Option<nat>, n: nat, m: nat)
    requires n <= |groups|
    ensures multiset(OwnedBy(groups, links, owner, n))[m] ==
              Indicator(m < n && Owner(links, groups[m].service) == owner)
  {
    hide Owner, OwnedBy;
    OwnedByUnfolds(groups, links, owner, n);
    if n > 0 {
      OwnedOnce(groups, links, owner, n - 1, m);
      if Owner(links, groups[n - 1].service) == owner {
        AddsOne(OwnedBy(groups, links, owner, n - 1), n - 1, m);
      }
    }
  }

  lemma OwnedByUnfolds(groups: seq<Group>, links: Links, owner: Option<nat>, n: nat)
    requires n <= |groups|
    ensures n == 0 ==> OwnedBy(groups, links, owner, n) == []
    ensures n > 0 && Owner(links, groups[n - 1].service) == owner ==>
              OwnedBy(groups, links, owner, n) == OwnedBy(groups, links, owner, n - 1) + [n - 1]
    ensures n > 0 && Owner(links, groups[n - 1].service) != owner ==>
              OwnedBy(groups, links, owner, n) == OwnedBy(groups, links, owner, n - 1)
  {
    hide Owner;
  }

  lemma AddsOne(front: seq<nat>, x: nat, m: nat)
    ensures multiset(front + [x])[m] == multiset(front)[m] + Indicator(x == m)
  {
  }

  lemma MembersOfOneMore(front: seq<Correlated>, c: Correlated)
    ensures MembersOf(front + [c]) == MembersOf(front) + multiset(c.members)
  {
    assert (front + [c])[..|front|] == front;
  }

  /** The first pass takes each temporal group with an owner, once. */
  lemma {:induction false} LinkedTakesOwned(groups: seq<Group>, links: Links, critical: Option<set<string>>, t: nat,
                                            m: nat)
    requires t <= |links|
    ensures MembersOf(Linked(groups, links, critical, t))[m] ==
            Indicator(m < |groups| && Owner(links, groups[m].service).Some? &&
              Owner(links, groups[m].service).value < t)
  {
    hide Owner, MembersOf, OwnedBy, GroupFor;
    if t > 0 {
      LinkedTakesOwned(groups, links, critical, t - 1, m);
      OwnedOnce(groups, links, Some(t - 1), |groups|, m);
      var members := OwnedBy(groups, links, Some(t - 1), |groups|);
      var front := Linked(groups, links, critical, t - 1);
      MembersOfOneMore(front, GroupFor(groups, members, links[t - 1], Some(t - 1), critical, links));
      GroupHasMembers(groups, members, links[t - 1], Some(t - 1), critical, links);
      assert front + [] == front;
    } else {
      assert MembersOf([]) == multiset{} by { NoMembers(); }
    }
  }

  lemma NoMembers()
    ensures MembersOf([]) == multiset{}
  {
  }

  lemma GroupHasMembers(groups: seq<Group>, members: seq<nat>, services: set<string>, topology: Option<nat>,
                        critical: Option<set<string>>, links: Links)
    requires InRange(groups, members)
    ensures GroupFor(groups, members, services, topology, critical, links).members == members
  {
  }

  /** The second pass takes each temporal group without one, once. */
  lemma {:induction false} UnlinkedTakesRest(groups: seq<Group>, links: Links, critical: Option<set<string>>, n: nat,
                                             m: nat)
    requires n <= |groups|
    ensures MembersOf(Unlinked(groups, links, critical, n))[m] ==
              Indicator(m < n && Owner(links, groups[m].service).None?)
  {
    hide Owner, MembersOf, GroupFor;
    NoMembers();
    if n > 0 {
      UnlinkedTakesRest(groups, links, critical, n - 1, m);
      var front := Unlinked(groups, links, critical, n - 1);
      MembersOfOneMore(front, GroupFor(groups, [n - 1], {groups[n - 1].service}, None, critical, links));
      GroupHasMembers(groups, [n - 1], {groups[n - 1].service}, None, critical, links);
      assert front + [] == front;
    }
  }

  /** What every assembled group is: not empty, its own count right, and for a topology
      group the first correlation involving each of its services. */
  ghost predicate Sound(groups: seq<Group>, links: Links, c: Correlated) {
    && c.members != [] && InRange(groups, c.members)
    && c.eventCount == EventTotal(groups, c.members) && c.peak == PeakOver(groups, c.members)
    && c.services == (if c.topology.Some? then if c.topology.value < |links| then links[c.topology.value] else {}
                      else {groups[c.members[0]].service})
    && (forall i :: 0 <= i < |c.members| ==>
          Owner(links, groups[c.members[i]].service) == c.topology && groups[c.members[i]].service in c.services)
  }

  /** The peak of an assembled group is the largest severity of any event in it. */
  lemma {:induction false} PeakOverIsLargest(groups: seq<Group>, members: seq<nat>) returns (i: nat, j: nat)
    requires members != [] && InRange(groups, members) && forall m :: m in members ==> groups[m].events != []
    ensures i < |members| && j < |groups[members[i]].events|
    ensures groups[members[i]].events[j].severity == PeakOver(groups, members)
    ensures forall k, l :: 0 <= k < |members| && 0 <= l < |groups[members[k]].events| ==>
              groups[members[k]].events[l].severity <= PeakOver(groups, members)
    decreases |members|
  {
    hide PeakOf;
    var n := |members| - 1;
    j := PeakIsLargest(groups[members[n]].events);
    i := n;
    if n > 0 {
      var front := members[..n];
      var a, b := PeakOverIsLargest(groups, front);
      if PeakOf(groups[members[n]].events) <= PeakOver(groups, front) { i, j := a, b; }
      forall k, l | 0 <= k < |members| && 0 <= l < |groups[members[k]].events|
        ensures groups[members[k]].events[l].severity <= PeakOver(groups, members)
      {
        if k < n { assert front[k] == members[k]; }
      }
    }
  }

  lemma {:induction false} LinkedSound(groups: seq<Group>, links: Links, critical: Option<set<string>>, t: nat)
    requires t <= |links|
    ensures forall c :: c in Linked(groups, links, critical, t) ==> Sound(groups, links, c)
  {
    hide Sound, GroupFor, OwnedBy;
    if t > 0 {
      LinkedSound(groups, links, critical, t - 1);
      if OwnedBy(groups, links, Some(t - 1), |groups|) != [] { LinkedGroupSound(groups, links, critical, t - 1); }
    }
  }

  lemma LinkedGroupSound(groups: seq<Group>, links: Links, critical: Option<set<string>>, t: nat)
    requires t < |links| && OwnedBy(groups, links, Some(t), |groups|) != []
    ensures var members := OwnedBy(groups, links, Some(t), |groups|);
            Sound(groups, links, GroupFor(groups, members, links[t], Some(t), critical, links))
  {
    hide PeakOver, EventTotal, Priority, Owner;
    var members := OwnedBy(groups, links, Some(t), |groups|);
    forall i | 0 <= i < |members|
      ensures groups[members[i]].service in links[t]
    {
      OwnerIsFirst(links, groups[members[i]].service);
    }
  }

  lemma {:induction false} UnlinkedSound(groups: seq<Group>, links: Links, critical: Option<set<string>>, n: nat)
    requires n <= |groups|
    ensures forall c :: c in Unlinked(groups, links, critical, n) ==> Sound(groups, links, c)
  {
    if n > 0 { UnlinkedSound(groups, links, critical, n - 1); }
  }

  /** MAIN: whatever the topology correlations, every temporal group is a member of exactly
      one correlated group, and no correlated group is empty. */
  lemma AssemblyConserves(groups: seq<Group>, links: Links, critical: Option<set<string>>, m: nat)
    ensures MembersOf(Assembled(groups, links, critical))[m] == Indicator(m < |groups|)
    ensures forall c :: c in Assembled(groups, links, critical) ==> Sound(groups, links, c)
  {
    SumsOverSum(Linked(groups, links, critical, |links|), Unlinked(groups, links, critical, |groups|));
    LinkedTakesOwned(groups, links, critical, |links|, m);
    UnlinkedTakesRest(groups, links, critical, |groups|, m);
    if m < |groups| { OwnerIsFirst(links, groups[m].service); }
    LinkedSound(groups, links, critical, |links|);
    UnlinkedSound(groups, links, critical, |groups|);
  }

  // ---------- counts ----------

  /** The events of groups, weighted by how often each group occurs in `members`. */
  function Weight(groups: seq<Group>, members: multiset<nat>, n: nat): nat
    requires n <= |groups|
  {
    if n == 0 then 0 else Weight(groups, members, n - 1) + members[n - 1] * |groups[n - 1].events|
  }

  lemma {:induction false} WeightAdds(groups: seq<Group>, a: multiset<nat>, b: multiset<nat>, n: nat)
    requires n <= |groups|
    ensures Weight(groups, a + b, n) == Weight(groups, a, n) + Weight(groups, b, n)
  {
    if n > 0 {
      WeightAdds(groups, a, b, n - 1);
      Distributes(a[n - 1], b[n - 1], |groups[n - 1].events|);
      assert (a + b)[n - 1] == a[n - 1] + b[n - 1];
    }
  }

  lemma Distributes(x: nat, y: nat, z: nat)
    ensures (x + y) * z == x * z + y * z
  {
  }

  lemma {:induction false} WeightOfOne(groups: seq<Group>, m: nat, n: nat)
    requires n <= |groups| && m < |groups|
    ensures Weight(groups, multiset{m}, n) == if m < n then |groups[m].events| else 0
  {
    if n > 0 { WeightOfOne(groups, m, n - 1); }
  }

  lemma {:induction false} WeightOfMembers(groups: seq<Group>, members: seq<nat>)
    requires InRange(groups, members)
    ensures EventTotal(groups, members) == Weight(groups, multiset(members), |groups|)
  {
    if |members| == 0 {
      WeightOfNone(groups, |groups|);
    } else {
      var front, last := members[..|members| - 1], members[|members| - 1];
      assert members == front + [last];
      WeightOfMembers(groups, front);
      WeightAdds(groups, multiset(front), multiset{last}, |groups|);
      WeightOfOne(groups, last, |groups|);
    }
  }

  lemma {:induction false} WeightOfNone(groups: seq<Group>, n: nat)
    requires n <= |groups|
    ensures Weight(groups, multiset{}, n) == 0
  {
    if n > 0 { WeightOfNone(groups, n - 1); }
  }

  lemma {:induction false} CountIsWeight(groups: seq<Group>, links: Links, cs: seq<Correlated>)
    requires forall c :: c in cs ==> Sound(groups, links, c)
    ensures CountOf(cs) == Weight(groups, MembersOf(cs), |groups|)
  {
    if |cs| == 0 {
      WeightOfNone(groups, |groups|);
    } else {
      var front, last := cs[..|cs| - 1], cs[|cs| - 1];
      assert cs == front + [last];
      assert last in cs;
      CountIsWeight(groups, links, front);
      WeightOfMembers(groups, last.members);
      WeightAdds(groups, MembersOf(front), multiset(last.members), |groups|);
    }
  }

  lemma {:induction false} WeightOfAll(groups: seq<Group>, members: multiset<nat>, n: nat)
    requires n <= |groups| && forall m: nat :: members[m] == Indicator(m < |groups|)
    ensures Weight(groups, members, n) == |EventsOf(groups[..n])|
  {
    if n > 0 {
      WeightOfAll(groups, members, n - 1);
      assert groups[..n][..n - 1] == groups[..n - 1];
    }
  }

  lemma SoonerIsWeakOrder()
    ensures WeakOrder(Sooner)
  {
  }

  lemma EnrichedEvents(events: seq<Event>, score: Event -> real)
    ensures |Enriched(events, score)| == |Keys(events)|
  {
    KeysAreDistinct(events);
    OneSignalPerKey(events, Keys(events));
  }

  lemma AllCounted(groups: seq<Group>, links: Links, critical: Option<set<string>>)
    ensures CountOf(Assembled(groups, links, critical)) == |EventsOf(groups)|
  {
    hide Assembled, Sound;
    var all := Assembled(groups, links, critical);
    forall m: nat
      ensures MembersOf(all)[m] == Indicator(m < |groups|)
    {
      AssemblyConserves(groups, links, critical, m);
    }
    AssemblyConserves(groups, links, critical, 0);
    CountIsWeight(groups, links, all);
    WeightOfAll(groups, MembersOf(all), |groups|);
    assert groups[..|groups|] == groups;
  }

  lemma SortedCorrelation(groups: seq<Group>, links: Links, critical: Option<set<string>>)
    ensures var all := Assembled(groups, links, critical);
            var cs := Sort(all, Sooner);
            && CountOf(cs) == CountOf(all) && MembersOf(cs) == MembersOf(all) && Ascending(cs, Sooner)
            && forall c :: c in cs <==> c in all
  {
    hide Assembled, Sooner;
    var all := Assembled(groups, links, critical);
    SoonerIsWeakOrder();
    SortIsSort(all, Sooner);
    SumsIgnoreOrder(Sort(all, Sooner), all);
  }

  /** By tier, and within a tier the loudest first. */
  ghost predicate InPriorityOrder(cs: seq<Correlated>) {
    forall i, j :: 0 <= i < j < |cs| ==>
      cs[i].priority < cs[j].priority || (cs[i].priority == cs[j].priority && cs[i].peak >= cs[j].peak)
  }

  lemma AscendingIsPriorityOrder(cs: seq<Correlated>)
    requires Ascending(cs, Sooner)
    ensures InPriorityOrder(cs)
  {
    forall i, j | 0 <= i < j < |cs|
      ensures cs[i].priority < cs[j].priority || (cs[i].priority == cs[j].priority && cs[i].peak >= cs[j].peak)
    {
      assert !Sooner(cs[j], cs[i]);
    }
  }

  /** What a topology makes of a tier. */
  ghost predicate Prioritised(links: Links, critical: Option<set<string>>, c: Correlated) {
    InTier(c.priority, c.peak, c.services, critical, links)
  }

  lemma {:induction false} LinkedPrioritised(groups: seq<Group>, links: Links, critical: Option<set<string>>, t: nat)
    requires t <= |links|
    ensures forall c :: c in Linked(groups, links, critical, t) ==> Prioritised(links, critical, c)
  {
    hide Prioritised, GroupFor, OwnedBy;
    if t > 0 {
      LinkedPrioritised(groups, links, critical, t - 1);
      var members := OwnedBy(groups, links, Some(t - 1), |groups|);
      GroupPrioritised(groups, members, links[t - 1], Some(t - 1), critical, links);
    }
  }

  lemma GroupPrioritised(groups: seq<Group>, members: seq<nat>, services: set<string>, topology: Option<nat>,
                         critical: Option<set<string>>, links: Links)
    requires InRange(groups, members)
    ensures Prioritised(links, critical, GroupFor(groups, members, services, topology, critical, links))
  {
    hide InTier, Priority;
    PriorityMeans(PeakOver(groups, members), services, critical, links,
                  Priority(PeakOver(groups, members), services, critical, links));
  }

  lemma {:induction false} UnlinkedPrioritised(groups: seq<Group>, links: Links, critical: Option<set<string>>, n: nat)
    requires n <= |groups|
    ensures forall c :: c in Unlinked(groups, links, critical, n) ==> Prioritised(links, critical, c)
  {
    hide Prioritised, GroupFor, Owner;
    if n > 0 {
      UnlinkedPrioritised(groups, links, critical, n - 1);
      GroupPrioritised(groups, [n - 1], {groups[n - 1].service}, None, critical, links);
    }
  }

  /** What a correlated group says of itself: the tier its peak and its services put it in, the
      services of its correlation or its own, its peak and its number of events. */
  lemma GroupsMean(events: seq<Event>, width: int, score: Event -> real, link: seq<Group> -> Links,
                   critical: Option<set<string>>, c: Correlated)
    requires width >= 0 && c in CorrelationOf(events, width, score, link, critical)
    ensures var groups := TemporalGroups(events, width, score);
            Sound(groups, link(groups), c) && Prioritised(link(groups), critical, c)
  {
    hide Assembled, Sound, Prioritised, Sooner;
    var groups := TemporalGroups(events, width, score);
    SortedCorrelation(groups, link(groups), critical);
    AssemblyConserves(groups, link(groups), critical, 0);
    AssembledPrioritised(groups, link(groups), critical);
  }

  lemma AssembledPrioritised(groups: seq<Group>, links: Links, critical: Option<set<string>>)
    ensures forall c :: c in Assembled(groups, links, critical) ==> Prioritised(links, critical, c)
  {
    hide Prioritised;
    LinkedPrioritised(groups, links, critical, |links|);
    UnlinkedPrioritised(groups, links, critical, |groups|);
  }

  /** The events that are grouped are the first of each key, with the severity they score. */
  lemma EnrichedMeans(events: seq<Event>, score: Event -> real, i: nat)
    requires i < |Keys(events)|
    ensures |Enriched(events, score)| == |Keys(events)|
    ensures exists e :: IsFirst(e, events, Keys(events)[i]) && Enriched(events, score)[i] == e.(severity := score(e))
  {
    EnrichedEvents(events, score);
    KeysAreDistinct(events);
    OneSignalPerKey(events, Keys(events));
    var signal := SignalsOf(events, Keys(events))[i];
    var e := signal.event;
    assert Summarises(signal, events, Keys(events)[i]);
    assert Enriched(events, score)[i] == e.(severity := score(e));
  }

  /** MAIN: the event counts of a correlation sum to the number of distinct dedup keys in the
      window, whatever the topology, the scores and the window width; every temporal group
      is in exactly one correlated group; none is empty; and they come in order of priority. */
  lemma CorrelationConserves(events: seq<Event>, width: int, score: Event -> real, link: seq<Group> -> Links,
                             critical: Option<set<string>>, m: nat)
    requires width >= 0
    ensures var cs := CorrelationOf(events, width, score, link, critical);
            && CountOf(cs) == |Keys(events)| && InPriorityOrder(cs)
            && MembersOf(cs)[m] == Indicator(m < |TemporalGroups(events, width, score)|)
            && (forall c :: c in cs ==> c.members != [])
  {
    hide Keys, Sort, Services, GroupsOf, Enriched, Assembled, Ascending, MembersOf, CountOf, Sooner;
    var groups := TemporalGroups(events, width, score);
    EnrichedEvents(events, score);
    GroupingConserves(Enriched(events, score), width);
    assert |EventsOf(groups)| == |Enriched(events, score)|;
    if groups == [] {
      NothingCorrelated();
    } else {
      SortedCorrelation(groups, link(groups), critical);
      AscendingIsPriorityOrder(CorrelationOf(events, width, score, link, critical));
      AllCounted(groups, link(groups), critical);
      AssemblyConserves(groups, link(groups), critical, m);
    }
  }

  lemma NothingCorrelated()
    ensures Ascending([], Sooner) && MembersOf([]) == multiset{} && CountOf([]) == 0 && EventsOf([]) == multiset{}
  {
  }
}
