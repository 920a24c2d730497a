/** Signal deduplication (correlate/correlation/dedup.py). Timestamps are integers ordered as
    their ISO strings. */
module Dedup {
  import opened Wrappers

  /** `alert` is the payload's alert name or metric; `breach` marks a quality breach. */
  datatype Event = Event(id: string, time: int, source: string, service: string, kind: string, environment: string,
                         alert: Option<string>, breach: bool, severity: real)

  /** The first event of a key with how often the key occurred and over what time. */
  datatype Signal = Signal(event: Event, count: nat, first: int, last: int)

  function KeyOf(e: Event): string {
    e.source + "|" + e.service + "|" + e.kind + "|" + e.environment + if e.alert.Some? then "|" + e.alert.value else ""
  }

  /** The distinct keys in order of first occurrence. */
  function Keys(events: seq<Event>): seq<string> {
    if |events| == 0 then []
    else
      var front, key := Keys(events[..|events| - 1]), KeyOf(events[|events| - 1]);
      if key in front then front else front + [key]
  }

  function Least(a: int, b: int): int { if a < b then a else b }

  function Greatest(a: int, b: int): int { if a > b then a else b }

  /** What a signal becomes with one more event of its key. */
  function Absorb(s: Option<Signal>, e: Event): Signal {
    match s
    case None => Signal(e, 1, e.time, e.time)
    case Some(t) => t.(count := t.count + 1, first := Least(e.time, t.first), last := Greatest(e.time, t.last))
  }

  function SignalFor(events: seq<Event>, key: string): Option<Signal> {
    if |events| == 0 then None
    else
      var front, e := SignalFor(events[..|events| - 1], key), events[|events| - 1];
      if KeyOf(e) == key then Some(Absorb(front, e)) else front
  }

  /** The signals of `keys`, in order. */
  function SignalsOf(events: seq<Event>, keys: seq<string>): seq<Signal> {
    if |keys| == 0 then []
    else
      var n := |keys| - 1;
      SignalsOf(events, keys[..n]) +
      match SignalFor(events, keys[n])
      case Some(s) => [s]
      case None => []
  }

  function Lookup(m: map<string, Signal>, key: string): Option<Signal> { if key in m then Some(m[key]) else None }

  method Deduplicate(events: seq<Event>) returns (result: seq<Signal>)
    ensures result == SignalsOf(events, Keys(events))
  {
    var seen: map<string, Signal> := map[];
    var order: seq<string> := [];
    for i := 0 to |events|
      invariant order == Keys(events[..i]) && (forall k :: k in order <==> k in seen)
      invariant forall k :: Lookup(seen, k) == SignalFor(events[..i], k)
    {
      assert events[..i + 1][..i] == events[..i];
      var key := KeyOf(events[i]);
      if key !in seen {
        order := order + [key];
        seen := seen[key := Signal(events[i], 1, events[i].time, events[i].time)];
      } else {
        var s := seen[key];
        s := s.(count := s.count + 1);
        if events[i].time < s.first { s := s.(first := events[i].time); }
        if events[i].time > s.last { s := s.(last := events[i].time); }
        seen := seen[key := s];
      }
    }
    assert events[..|events|] == events;
    result := [];
    for i := 0 to |order|
      invariant result == SignalsOf(events, order[..i])
    {
      assert order[i] in order && order[..i + 1][..i] == order[..i];
      assert Lookup(seen, order[i]) == SignalFor(events, order[i]);
      result := result + [seen[order[i]]];
    }
    assert order[..|order|] == order;
  }

  // ---------- laws ----------

  function Positions(events: seq<Event>, key: string): set<nat> { set i: nat | i < |events| && KeyOf(events[i]) == key }

  lemma {:induction false} KeysAreDistinct(events: seq<Event>)
    ensures forall i, j :: 0 <= i < j < |Keys(events)| ==> Keys(events)[i] != Keys(events)[j]
    ensures forall k :: k in Keys(events) <==> Positions(events, k) != {}
  {
    if |events| > 0 {
      var front := events[..|events| - 1];
      KeysAreDistinct(front);
      forall k
        ensures k in Keys(events) <==> Positions(events, k) != {}
      {
        OnePosition(events, k);
      }
    }
  }

  lemma OnePosition(events: seq<Event>, key: string)
    requires |events| > 0
    ensures var n := |events| - 1;
            Positions(events, key) == Positions(events[..n], key) + if KeyOf(events[n]) == key then {n} else {}
  {
  }

  /** The keys come in the order in which they are first seen. */
  lemma {:induction false} KeysInOrder(events: seq<Event>, n: nat)
    requires n <= |events|
    ensures Keys(events[..n]) <= Keys(events)
    decreases |events|
  {
    if n < |events| {
      assert events[..|events| - 1][..n] == events[..n];
      KeysInOrder(events[..|events| - 1], n);
    } else {
      assert events[..n] == events;
    }
  }

  predicate Plain(e: Event) {
    '|' !in e.source && '|' !in e.service && '|' !in e.kind && '|' !in e.environment
  }

  /** What a key says of environment and alert. */
  function KeyTail(e: Event): string { e.environment + if e.alert.Some? then "|" + e.alert.value else "" }

  /** Events share a key exactly if source, service, type, environment and alert agree, as long as
      the first four hold no separator. */
  lemma SameKeyIff(a: Event, b: Event)
    requires Plain(a) && Plain(b)
    ensures KeyOf(a) == KeyOf(b) <==>
            a.source == b.source && a.service == b.service && a.kind == b.kind && a.environment == b.environment
            && a.alert == b.alert
  {
    hide KeyOf, KeyTail;
    KeyParts(a);
    KeyParts(b);
    var fromKindA, fromKindB := a.kind + "|" + KeyTail(a), b.kind + "|" + KeyTail(b);
    FirstPart(a.source, a.service + "|" + fromKindA, b.source, b.service + "|" + fromKindB);
    FirstPart(a.service, fromKindA, b.service, fromKindB);
    FirstPart(a.kind, KeyTail(a), b.kind, KeyTail(b));
    SameTailIff(a, b);
  }

  lemma KeyParts(e: Event)
    ensures KeyOf(e) == e.source + "|" + (e.service + "|" + (e.kind + "|" + KeyTail(e)))
  {
  }

  lemma {:induction false} FirstPart(x: string, s: string, y: string, t: string)
    requires '|' !in x && '|' !in y
    ensures x + "|" + s == y + "|" + t <==> x == y && s == t
  {
    var a, b := x + "|" + s, y + "|" + t;
    if x == "" || y == "" {
      assert a[0] == (if x == "" then '|' else x[0]) && b[0] == (if y == "" then '|' else y[0]);
      assert x == "" && y == "" ==> a[1..] == s && b[1..] == t;
    } else {
      FirstPart(x[1..], s, y[1..], t);
      assert a == [x[0]] + (x[1..] + "|" + s) && b == [y[0]] + (y[1..] + "|" + t);
      assert a[0] == x[0] && a[1..] == x[1..] + "|" + s && b[0] == y[0] && b[1..] == y[1..] + "|" + t;
      assert x == [x[0]] + x[1..] && y == [y[0]] + y[1..];
    }
  }

  lemma SameTailIff(a: Event, b: Event)
    requires '|' !in a.environment && '|' !in b.environment
    ensures KeyTail(a) == KeyTail(b) <==> a.environment == b.environment && a.alert == b.alert
  {
    TailMeans(a);
    TailMeans(b);
    if a.alert.Some? && b.alert.Some? {
      assert KeyTail(a) == a.environment + "|" + a.alert.value && KeyTail(b) == b.environment + "|" + b.alert.value;
      FirstPart(a.environment, a.alert.value, b.environment, b.alert.value);
    }
  }

  lemma TailMeans(e: Event)
    requires '|' !in e.environment
    ensures '|' in KeyTail(e) <==> e.alert.Some?
    ensures e.alert.None? ==> KeyTail(e) == e.environment
  {
    if e.alert.Some? { assert KeyTail(e)[|e.environment|] == '|'; }
  }

  predicate At(events: seq<Event>, key: string, i: nat) { i < |events| && KeyOf(events[i]) == key }

  ghost predicate IsFirst(e: Event, events: seq<Event>, key: string) {
    exists i: nat :: At(events, key, i) && events[i] == e && forall j: nat :: At(events, key, j) ==> i <= j
  }

  ghost predicate Occurs(time: int, events: seq<Event>, key: string) {
    exists i: nat :: At(events, key, i) && events[i].time == time
  }

  /** A signal holds the first event of its key, counts every event of the key, and spans
      exactly their times. */
  ghost predicate Summarises(s: Signal, events: seq<Event>, key: string) {
    && s.count == |Positions(events, key)| && IsFirst(s.event, events, key)
    && (forall i: nat :: At(events, key, i) ==> s.first <= events[i].time <= s.last)
    && Occurs(s.first, events, key) && Occurs(s.last, events, key)
  }

  /** MAIN: a key has a signal iff it occurs, and the signal summarises its events. */
  lemma {:induction false} SignalSummarises(events: seq<Event>, key: string)
    ensures SignalFor(events, key).Some? <==> Positions(events, key) != {}
    ensures SignalFor(events, key).Some? ==> Summarises(SignalFor(events, key).value, events, key)
  {
    hide Summarises, Positions;
    if |events| > 0 {
      var n := |events| - 1;
      SignalSummarises(events[..n], key);
      OnePosition(events, key);
      if KeyOf(events[n]) == key {
        if SignalFor(events[..n], key).Some? {
          AbsorbKeeps(SignalFor(events[..n], key).value, events, key);
        } else {
          FirstOfKey(events, key);
        }
      } else if SignalFor(events, key).Some? {
        SkipKeeps(SignalFor(events, key).value, events, key);
      }
    } else {
      assert Positions(events, key) == {} by { NoPositions(events, key); }
    }
  }

  lemma NoPositions(events: seq<Event>, key: string)
    requires events == []
    ensures Positions(events, key) == {}
  {
  }

  lemma FirstOfKey(events: seq<Event>, key: string)
    requires |events| > 0 && KeyOf(events[|events| - 1]) == key && Positions(events[..|events| - 1], key) == {}
    ensures Summarises(Absorb(None, events[|events| - 1]), events, key)
  {
    hide KeyOf;
    var n := |events| - 1;
    OneMorePosition(events, key);
    OnePosition(events, key);
    forall j: nat | At(events, key, j)
      ensures j == n
    {
      assert j in Positions(events, key);
    }
    assert At(events, key, n);
  }

  lemma StillFirst(e: Event, events: seq<Event>, key: string)
    requires |events| > 0 && IsFirst(e, events[..|events| - 1], key)
    ensures IsFirst(e, events, key)
  {
    var front := events[..|events| - 1];
    var i: nat :| At(front, key, i) && front[i] == e && forall j: nat :: At(front, key, j) ==> i <= j;
    forall j: nat | At(events, key, j)
      ensures i <= j
    {
      if j < |front| { assert At(front, key, j); }
    }
    assert At(events, key, i);
  }

  lemma StillOccurs(time: int, events: seq<Event>, key: string)
    requires |events| > 0 && Occurs(time, events[..|events| - 1], key)
    ensures Occurs(time, events, key)
  {
    var front := events[..|events| - 1];
    var i: nat :| At(front, key, i) && front[i].time == time;
    assert At(events, key, i);
  }

  lemma StillBounded(s: Signal, events: seq<Event>, key: string)
    requires |events| > 0 && forall i: nat :: At(events[..|events| - 1], key, i) ==> s.first <= events[i].time <= s.last
    ensures forall i: nat :: At(events, key, i) && i < |events| - 1 ==> s.first <= events[i].time <= s.last
  {
    forall i: nat | At(events, key, i) && i < |events| - 1
      ensures s.first <= events[i].time <= s.last
    {
      assert At(events[..|events| - 1], key, i);
    }
  }

  lemma AbsorbKeeps(s: Signal, events: seq<Event>, key: string)
    requires |events| > 0 && KeyOf(events[|events| - 1]) == key && Summarises(s, events[..|events| - 1], key)
    ensures Summarises(Absorb(Some(s), events[|events| - 1]), events, key)
  {
    hide IsFirst, Positions, KeyOf;
    var n := |events| - 1;
    OnePosition(events, key);
    OneMorePosition(events, key);
    StillFirst(s.event, events, key);
    StillOccurs(s.first, events, key);
    StillOccurs(s.last, events, key);
    StillBounded(s, events, key);
    assert At(events, key, n);
  }

  lemma OneMorePosition(events: seq<Event>, key: string)
    requires |events| > 0 && KeyOf(events[|events| - 1]) == key
    ensures |Positions(events, key)| == |Positions(events[..|events| - 1], key)| + 1
  {
    OnePosition(events, key);
  }

  lemma SkipKeeps(s: Signal, events: seq<Event>, key: string)
    requires |events| > 0 && KeyOf(events[|events| - 1]) != key && Summarises(s, events[..|events| - 1], key)
    ensures Summarises(s, events, key)
  {
    hide IsFirst, Occurs, KeyOf;
    OnePosition(events, key);
    StillFirst(s.event, events, key);
    StillOccurs(s.first, events, key);
    StillOccurs(s.last, events, key);
    StillBounded(s, events, key);
  }

  /** The counts of the signals of `keys`. */
  function CountsOf(events: seq<Event>, keys: seq<string>): nat {
    if |keys| == 0 then 0 else CountsOf(events, keys[..|keys| - 1]) + |Positions(events, keys[|keys| - 1])|
  }

  /** One signal for each distinct key. */
  lemma {:induction false} OneSignalPerKey(events: seq<Event>, keys: seq<string>)
    requires forall k :: k in keys ==> Positions(events, k) != {}
    ensures |SignalsOf(events, keys)| == |keys|
    ensures forall i :: 0 <= i < |keys| ==> Summarises(SignalsOf(events, keys)[i], events, keys[i])
  {
    hide Summarises, Positions;
    if |keys| > 0 {
      var n := |keys| - 1;
      assert keys == keys[..n] + [keys[n]];
      OneSignalPerKey(events, keys[..n]);
      SignalSummarises(events, keys[n]);
    }
  }

  lemma {:induction false} CountsGrow(events: seq<Event>, keys: seq<string>)
    requires |events| > 0 && forall i, j :: 0 <= i < j < |keys| ==> keys[i] != keys[j]
    ensures CountsOf(events, keys) ==
            CountsOf(events[..|events| - 1], keys) + if KeyOf(events[|events| - 1]) in keys then 1 else 0
  {
    if |keys| > 0 {
      var k := keys[|keys| - 1];
      CountsGrow(events, keys[..|keys| - 1]);
      OnePosition(events, k);
      assert keys == keys[..|keys| - 1] + [k];
    }
  }

  /** MAIN: no event is lost or counted twice. */
  lemma {:induction false} CountsSumToInput(events: seq<Event>)
    ensures CountsOf(events, Keys(events)) == |events|
  {
    if |events| > 0 {
      var front, key := events[..|events| - 1], KeyOf(events[|events| - 1]);
      CountsSumToInput(front);
      KeysAreDistinct(events);
      CountsGrow(events, Keys(events));
      if key !in Keys(front) {
        KeysAreDistinct(front);
        assert Keys(events)[..|Keys(front)|] == Keys(front);
        assert Positions(front, key) == {};
      }
    }
  }
}
