/** Parsing and keying of the served judgment thresholds
    (measure/thresholds/state.py and phase.py `_entries`).

    Hash values are plain strings: two thresholds may share a digest, so collisions are
    part of the model. The entry list is a map from key to entry; its order only decides
    where a run starts. */
module ThresholdKeys {
  import opened Wrappers

  /** A parsed threshold: `identity` is the hash of the identifying fields, `digest` the
      hash of the bound values, `body` the rest. Equality is that of the canonical form. */
  datatype Threshold = Threshold(kind: string, identity: string, digest: string, body: string)

  /** threshold_key: "service:kind:identity". */
  datatype Base = Base(service: string, kind: string, identity: string)

  /** The state key of an entry: the base alone, or the base with "~digest". */
  datatype Key = Bare(base: Base) | Suffixed(base: Base, digest: string)

  /** A threshold as served for a service. */
  datatype Entry = Entry(service: string, t: Threshold) {
    function ThresholdKey(): Base { Base(service, t.kind, t.identity) }
  }

  datatype Item = Unparsable | Parsed(t: Threshold)
  datatype Items = Absent | NotAList | Listed(items: seq<Item>)

  /** `name` is None when it is not a string. */
  datatype Manifest = Manifest(name: Option<string>, thresholds: Items) {
    predicate Named() { name.Some? && name.value != "" }
  }

  // ---------- what is served ----------

  function ParsedItems(service: string, items: seq<Item>): seq<Entry> {
    if |items| == 0 then []
    else
      var rest := ParsedItems(service, items[..|items| - 1]);
      match items[|items| - 1]
      case Unparsable => rest
      case Parsed(t) => rest + [Entry(service, t)]
  }

  function ServedBy(m: Manifest): seq<Entry> {
    if m.Named() && m.thresholds.Listed? then ParsedItems(m.name.value, m.thresholds.items) else []
  }

  function AllServed(ms: seq<Manifest>): seq<Entry> {
    if |ms| == 0 then [] else AllServed(ms[..|ms| - 1]) + ServedBy(ms[|ms| - 1])
  }

  predicate Lists(m: Manifest, service: string) {
    m.Named() && m.name.value == service && m.thresholds.Listed?
  }

  /** Manifest `m` of `service` says nothing reliable about which entries exist. */
  predicate Unreliable(m: Manifest, service: string) {
    m.Named() && m.name.value == service && (m.thresholds.Listed? ==> Unparsable in m.thresholds.items)
  }

  /** Safe to retire against: listed by some manifest, unreliable in none. */
  ghost predicate FullyPresent(ms: seq<Manifest>, service: string) {
    && (exists i :: 0 <= i < |ms| && Lists(ms[i], service))
    && (forall i :: 0 <= i < |ms| ==> !Unreliable(ms[i], service))
  }

  // ---------- keying ----------

  /** The distinct thresholds of one base, in order of first appearance. */
  function DistinctOf(served: seq<Entry>, b: Base): seq<Threshold> {
    if |served| == 0 then []
    else
      var rest := DistinctOf(served[..|served| - 1], b);
      var last := served[|served| - 1];
      if last.ThresholdKey() == b && last.t !in rest then rest + [last.t] else rest
  }

  /** The bases, in order of first appearance. */
  function BasesOf(served: seq<Entry>): seq<Base> {
    if |served| == 0 then []
    else
      var rest := BasesOf(served[..|served| - 1]);
      var b := served[|served| - 1].ThresholdKey();
      if b in rest then rest else rest + [b]
  }

  /** Same-base siblings, each keyed by its digest; on a digest collision the first stays. */
  function SuffixedGroup(b: Base, ts: seq<Threshold>): map<Key, Entry> {
    if |ts| == 0 then map[]
    else
      var rest := SuffixedGroup(b, ts[..|ts| - 1]);
      var t := ts[|ts| - 1];
      var key := Suffixed(b, t.digest);
      if key in rest then rest else rest[key := Entry(b.service, t)]
  }

  function Group(b: Base, ts: seq<Threshold>): map<Key, Entry> {
    if |ts| == 1 then map[Bare(b) := Entry(b.service, ts[0])] else SuffixedGroup(b, ts)
  }

  function Groups(served: seq<Entry>, bases: seq<Base>): map<Key, Entry> {
    if |bases| == 0 then map[]
    else
      var b := bases[|bases| - 1];
      Groups(served, bases[..|bases| - 1]) + Group(b, DistinctOf(served, b))
  }

  function EntriesOf(served: seq<Entry>): map<Key, Entry> {
    Groups(served, BasesOf(served))
  }

  /** The grouping dictionary after reading `served`. */
  ghost predicate Grouped(served: seq<Entry>, byBase: map<Base, seq<Threshold>>, order: seq<Base>) {
    && order == BasesOf(served)
    && (forall b :: b in byBase <==> b in order)
    && (forall b :: b in byBase ==> byBase[b] == DistinctOf(served, b))
    && (forall b :: b !in byBase ==> DistinctOf(served, b) == [])
  }

  method AddItem(ghost served: seq<Entry>, byBase: map<Base, seq<Threshold>>, order: seq<Base>, x: Entry)
    returns (byBase': map<Base, seq<Threshold>>, order': seq<Base>)
    requires Grouped(served, byBase, order)
    ensures Grouped(served + [x], byBase', order')
  {
    assert (served + [x])[..|served|] == served;
    byBase', order' := byBase, order;
    var b := x.ThresholdKey();
    if b !in byBase {
      byBase', order' := byBase[b := [x.t]], order + [b];
    } else if x.t !in byBase[b] {
      byBase' := byBase[b := byBase[b] + [x.t]];
    }
  }

  method AddItems(ghost served: seq<Entry>, byBase: map<Base, seq<Threshold>>, order: seq<Base>,
                  service: string, items: seq<Item>)
    returns (byBase': map<Base, seq<Threshold>>, order': seq<Base>, failed: bool)
    requires Grouped(served, byBase, order)
    ensures Grouped(served + ParsedItems(service, items), byBase', order')
    ensures failed <==> Unparsable in items
  {
    byBase', order', failed := byBase, order, false;
    assert served + [] == served;
    for j := 0 to |items|
      invariant Grouped(served + ParsedItems(service, items[..j]), byBase', order')
      invariant failed <==> Unparsable in items[..j]
    {
      assert items[..j + 1][..j] == items[..j];
      assert items[..j + 1] == items[..j] + [items[j]];
      match items[j] {
        case Unparsable =>
          failed := true;
        case Parsed(t) =>
          ghost var so := ParsedItems(service, items[..j]);
          assert served + (so + [Entry(service, t)]) == (served + so) + [Entry(service, t)];
          byBase', order' := AddItem(served + so, byBase', order', Entry(service, t));
      }
    }
    assert items[..|items|] == items;
  }

  method KeyGroup(b: Base, ts: seq<Threshold>) returns (group: map<Key, Entry>)
    ensures group == Group(b, ts)
  {
    if |ts| == 1 {
      return map[Bare(b) := Entry(b.service, ts[0])];
    }
    group := map[];
    for j := 0 to |ts|
      invariant group == SuffixedGroup(b, ts[..j])
    {
      assert ts[..j + 1][..j] == ts[..j];
      var key := Suffixed(b, ts[j].digest);
      if key in group {
        continue;  // a digest collision: keep the first, never merge state
      }
      group := group[key := Entry(b.service, ts[j])];
    }
    assert ts[..|ts|] == ts;
  }

  method GroupServed(ms: seq<Manifest>)
    returns (present: set<string>, byBase: map<Base, seq<Threshold>>, order: seq<Base>)
    ensures forall s :: s in present <==> FullyPresent(ms, s)
    ensures Grouped(AllServed(ms), byBase, order)
  {
    var listed: set<string>, partial: set<string> := {}, {};
    byBase, order := map[], [];
    for i := 0 to |ms|
      invariant Grouped(AllServed(ms[..i]), byBase, order)
      invariant forall s :: s in listed <==> exists j :: 0 <= j < i && Lists(ms[j], s)
      invariant forall s :: s in partial <==> exists j :: 0 <= j < i && Unreliable(ms[j], s)
    {
      var m := ms[i];
      ghost var before := AllServed(ms[..i]);
      assert ms[..i + 1][..i] == ms[..i];
      assert AllServed(ms[..i + 1]) == before + ServedBy(m);
      assert before + [] == before;
      if m.Named() {
        if m.thresholds.Listed? {
          var failed;
          listed := listed + {m.name.value};
          byBase, order, failed := AddItems(before, byBase, order, m.name.value, m.thresholds.items);
          if failed {
            partial := partial + {m.name.value};
          }
        } else {
          partial := partial + {m.name.value};
        }
      }
    }
    assert ms[..|ms|] == ms;
    present := listed - partial;
  }

  method Entries(ms: seq<Manifest>) returns (present: set<string>, entries: map<Key, Entry>)
    ensures forall s :: s in present <==> FullyPresent(ms, s)
    ensures entries == EntriesOf(AllServed(ms))
  {
    hide AllServed, FullyPresent, DistinctOf, BasesOf, Group;
    var byBase, order;
    present, byBase, order := GroupServed(ms);
    entries := map[];
    for i := 0 to |order|
      invariant entries == Groups(AllServed(ms), order[..i])
    {
      assert order[..i + 1][..i] == order[..i];
      var group := KeyGroup(order[i], byBase[order[i]]);
      entries := entries + group;
    }
    assert order[..|order|] == order;
  }

  // ---------- what is read ----------

  /** Manifest `m` lists the entry `x`. */
  predicate ListsEntry(m: Manifest, x: Entry) {
    m.name == Some(x.service) && x.service != "" && m.thresholds.Listed? && Parsed(x.t) in m.thresholds.items
  }

  lemma {:induction false} ParsedMeans(service: string, items: seq<Item>, x: Entry)
    ensures x in ParsedItems(service, items) <==> x.service == service && Parsed(x.t) in items
  {
    if |items| > 0 {
      ParsedMeans(service, items[..|items| - 1], x);
      assert items == items[..|items| - 1] + [items[|items| - 1]];
    }
  }

  /** What is served is what some named manifest lists and can be parsed; nothing else in a
      response matters. */
  lemma {:induction false} ServedMeans(ms: seq<Manifest>, x: Entry)
    ensures x in AllServed(ms) <==> exists m :: m in ms && ListsEntry(m, x)
  {
    if |ms| > 0 {
      var front, last := ms[..|ms| - 1], ms[|ms| - 1];
      ServedMeans(front, x);
      if last.Named() && last.thresholds.Listed? { ParsedMeans(last.name.value, last.thresholds.items, x); }
      assert ms == front + [last];
      assert x in ServedBy(last) <==> ListsEntry(last, x);
    }
  }

  /** A service is seen in full iff a manifest has its name, and all that do list thresholds that
      all parse. */
  lemma FullyPresentMeans(ms: seq<Manifest>, service: string)
    ensures FullyPresent(ms, service) <==>
            && service != "" && (exists m :: m in ms && m.name == Some(service))
            && forall m :: m in ms && m.name == Some(service) ==>
                 m.thresholds.Listed? && Unparsable !in m.thresholds.items
  {
    if FullyPresent(ms, service) {
      var i :| 0 <= i < |ms| && Lists(ms[i], service);
      assert ms[i] in ms;
      forall m | m in ms && m.name == Some(service)
        ensures m.thresholds.Listed? && Unparsable !in m.thresholds.items
      {
        var j :| 0 <= j < |ms| && ms[j] == m;
        assert !Unreliable(ms[j], service);
      }
    } else if service != "" {
      if m :| m in ms && m.name == Some(service) && m.thresholds.Listed? {
        var i :| 0 <= i < |ms| && ms[i] == m;
        assert Lists(ms[i], service);
        var j :| 0 <= j < |ms| && Unreliable(ms[j], service);
        assert ms[j] in ms;
      }
    }
  }

  /** Entries share a base iff service, type and measured identity agree. */
  lemma SameBaseIff(x: Entry, y: Entry)
    ensures x.ThresholdKey() == y.ThresholdKey() <==>
            x.service == y.service && x.t.kind == y.t.kind && x.t.identity == y.t.identity
  {
  }

  // ---------- what the keys mean ----------

  /** No other threshold is served under the base of `x`. */
  ghost predicate Alone(served: seq<Entry>, x: Entry) {
    forall y :: y in served && y.ThresholdKey() == x.ThresholdKey() ==> y == x
  }

  /** The key `x` gets: a function of the set of served entries, not of positions. */
  ghost function KeyFor(served: seq<Entry>, x: Entry): Key {
    if Alone(served, x) then Bare(x.ThresholdKey()) else Suffixed(x.ThresholdKey(), x.t.digest)
  }

  /** Every entry is served and sits under its own key; no served key is missing. */
  ghost predicate Keyed(served: seq<Entry>, entries: map<Key, Entry>) {
    && (forall k :: k in entries ==> entries[k] in served && KeyFor(served, entries[k]) == k)
    && (forall x :: x in served ==> KeyFor(served, x) in entries)
  }

  lemma {:induction false} DistinctElements(served: seq<Entry>, b: Base)
    ensures forall t :: t in DistinctOf(served, b) <==>
              t.kind == b.kind && t.identity == b.identity && Entry(b.service, t) in served
    ensures NoRepeats(DistinctOf(served, b))
  {
    if |served| > 0 {
      var n := |served| - 1;
      DistinctElements(served[..n], b);
      assert served == served[..n] + [served[n]];
    }
  }

  ghost predicate NoRepeats<T(!new)>(s: seq<T>) {
    forall i, j :: 0 <= i < j < |s| ==> s[i] != s[j]
  }

  lemma {:induction false} BaseElements(served: seq<Entry>)
    ensures forall x :: x in served ==> x.ThresholdKey() in BasesOf(served)
    ensures forall b :: b in BasesOf(served) ==> DistinctOf(served, b) != []
  {
    if |served| > 0 {
      var n := |served| - 1;
      BaseElements(served[..n]);
      assert served == served[..n] + [served[n]];
      DistinctElements(served[..n], served[n].ThresholdKey());
    }
  }

  lemma {:induction false} SuffixedFacts(b: Base, ts: seq<Threshold>)
    ensures var g := SuffixedGroup(b, ts);
            && (forall k :: k in g ==> k == Suffixed(b, g[k].t.digest) && g[k].t in ts && g[k].service == b.service)
            && (forall t :: t in ts ==> Suffixed(b, t.digest) in g)
  {
    if |ts| > 0 {
      var n := |ts| - 1;
      SuffixedFacts(b, ts[..n]);
      assert ts == ts[..n] + [ts[n]];
    }
  }

  lemma OneOrMany(served: seq<Entry>, x: Entry)
    requires x in served
    ensures var ts := DistinctOf(served, x.ThresholdKey());
            x.t in ts && (|ts| == 1 <==> Alone(served, x))
  {
    var b := x.ThresholdKey();
    DistinctElements(served, b);
    var ts := DistinctOf(served, b);
    assert Entry(b.service, x.t) == x;
    if |ts| == 1 {
      forall y | y in served && y.ThresholdKey() == b
        ensures y == x
      {
        assert Entry(b.service, y.t) == y;
        assert y.t in ts && x.t in ts;
      }
    } else {
      var other := if ts[0] == x.t then ts[1] else ts[0];
      assert other in ts;
      assert Entry(b.service, other).ThresholdKey() == b;
    }
  }

  lemma GroupFacts(served: seq<Entry>, b: Base)
    ensures var g := Group(b, DistinctOf(served, b));
            && (forall k :: k in g ==>
              k.base == b && g[k].ThresholdKey() == b && g[k] in served && KeyFor(served, g[k]) == k)
            && (forall x :: x in served && x.ThresholdKey() == b ==> KeyFor(served, x) in g)
  {
    var ts := DistinctOf(served, b);
    var g := Group(b, ts);
    DistinctElements(served, b);
    SuffixedFacts(b, ts);
    forall k | k in g
      ensures k.base == b && g[k].ThresholdKey() == b && g[k] in served && KeyFor(served, g[k]) == k
    {
      assert g[k].t in ts && g[k] == Entry(b.service, g[k].t);
      OneOrMany(served, g[k]);
    }
    forall x | x in served && x.ThresholdKey() == b
      ensures KeyFor(served, x) in g
    {
      OneOrMany(served, x);
    }
  }

  lemma {:induction false} GroupsFacts(served: seq<Entry>, bases: seq<Base>)
    ensures var g := Groups(served, bases);
            && (forall k :: k in g ==> k.base in bases && g[k] in served && KeyFor(served, g[k]) == k)
            && (forall x :: x in served && x.ThresholdKey() in bases ==> KeyFor(served, x) in g)
  {
    if |bases| > 0 {
      var n := |bases| - 1;
      assert bases == bases[..n] + [bases[n]];
      GroupsFacts(served, bases[..n]);
      GroupFacts(served, bases[n]);
    }
  }

  /** The entries of any response are keyed. */
  lemma EntriesAreKeyed(served: seq<Entry>)
    ensures Keyed(served, EntriesOf(served))
  {
    BaseElements(served);
    GroupsFacts(served, BasesOf(served));
  }

  /** No two distinct entries of one base share a digest. */
  ghost predicate DigestsFaithful(served: seq<Entry>) {
    forall x, y :: x in served && y in served && x.ThresholdKey() == y.ThresholdKey() && x.t.digest == y.t.digest ==>
      x == y
  }

  /** Every served threshold is evaluated exactly when digests tell siblings apart. */
  lemma EveryEntryKeptIffDigestsFaithful(served: seq<Entry>)
    ensures (forall x :: x in served ==> x in EntriesOf(served).Values) <==> DigestsFaithful(served)
  {
    var es := EntriesOf(served);
    EntriesAreKeyed(served);
    if DigestsFaithful(served) {
      forall x | x in served
        ensures x in es.Values
      {
        assert es[KeyFor(served, x)] == x;
      }
    } else {
      var x, y :| x in served && y in served && x.ThresholdKey() == y.ThresholdKey() && x.t.digest == y.t.digest &&
        x != y;
      assert !Alone(served, x) && !Alone(served, y);
      assert KeyFor(served, x) == KeyFor(served, y);
    }
  }

  /** Reordering or repeating served entries changes no key and no entry. */
  lemma ReorderingChangesNoKey(served: seq<Entry>, other: seq<Entry>)
    requires SameElements(served, other) && DigestsFaithful(served)
    ensures EntriesOf(served) == EntriesOf(other)
  {
    var es, os := EntriesOf(served), EntriesOf(other);
    forall k
      ensures k in es <==> k in os
      ensures k in es ==> os[k] == es[k]
    {
      EntriesAreKeyed(served);
      EntriesAreKeyed(other);
      KeysDetermined(served, other, es, os, k);
    }
    assert es.Keys == os.Keys;
  }

  ghost predicate SameElements(served: seq<Entry>, other: seq<Entry>) {
    forall x :: x in served <==> x in other
  }

  lemma SameKey(served: seq<Entry>, other: seq<Entry>, x: Entry, y: Entry)
    requires SameElements(served, other) && DigestsFaithful(served) && x in served && y in served
    ensures KeyFor(served, x) == KeyFor(other, x)
    ensures KeyFor(served, x) == KeyFor(served, y) ==> x == y
  {
  }

  lemma KeysDetermined(served: seq<Entry>, other: seq<Entry>, es: map<Key, Entry>, os: map<Key, Entry>, k: Key)
    requires SameElements(served, other)
    requires DigestsFaithful(served) && Keyed(served, es) && Keyed(other, os)
    ensures k in es <==> k in os
    ensures k in es ==> os[k] == es[k]
  {
    if k in es {
      var x := es[k];
      SameKey(served, other, x, x);
      var y := os[k];
      SameKey(served, other, y, x);
    } else if k in os {
      SameKey(served, other, os[k], os[k]);
    }
  }
}
