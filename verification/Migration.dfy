/** Carrying threshold state across a re-key (measure/thresholds/phase.py `_migrate`).

    Adding or removing a same-identity sibling moves an entry between its bare key and its
    suffixed key. `Pairs` says which old state key is carried to which new key; the method
    computes exactly that relation, and the lemmas say what the relation keeps. */
module Migration {
  import opened Wrappers
  import opened Hysteresis
  import opened ThresholdKeys

  datatype Ident = Ident(base: Base, digest: string)

  /** One state record. `ident` is None for records written before it existed. */
  datatype Rec = Rec(ks: KeyState, service: string, ident: Option<Ident>,
                     lastSignature: Option<string>, lastEmittedAt: Option<real>)

  type State = map<Key, Rec>
  type Live = map<Key, Entry>

  function IdentOf(e: Entry): Ident { Ident(e.ThresholdKey(), e.t.digest) }

  /** Keys as `_entries` makes them. */
  ghost predicate ProperKeys(live: Live) {
    && (forall k :: k in live ==> k.base == live[k].ThresholdKey() && (k.Suffixed? ==> k.digest == live[k].t.digest))
    && (forall k, l :: k in live && l in live && k.base == l.base && k.Bare? ==> l == k)
  }

  lemma KeyedKeysAreProper(served: seq<ThresholdKeys.Entry>, live: Live)
    requires Keyed(served, live)
    ensures ProperKeys(live)
  {
    forall k, l | k in live && l in live && k.base == l.base && k.Bare?
      ensures l == k
    {
      assert Alone(served, live[k]);
      assert live[l] == live[k];
    }
  }

  /** Every live key's record gets the identity of its current entry. */
  function Refreshed(s: State, live: Live): State {
    map k | k in s :: if k in live then s[k].(ident := Some(IdentOf(live[k]))) else s[k]
  }

  /** Dead state keys recorded for base `b`. */
  function Olds(s: State, live: Live, b: Base): set<Key> {
    set k | k in s && k !in live && s[k].service == b.service
            && s[k].ident.Some? && s[k].ident.value.base == b
  }

  /** Live keys of base `b` that have no state. */
  function News(s: State, live: Live, b: Base): set<Key> {
    set k | k in live && k !in s && live[k].ThresholdKey() == b
  }

  /** Dead keys of the base of `e` recorded with its digest. */
  function SameDigest(s: State, live: Live, e: Entry): set<Key> {
    set k | k in Olds(s, live, e.ThresholdKey()) && s[k].ident.value.digest == e.t.digest
  }

  ghost predicate ByDigest(s: State, live: Live, o: Key, n: Key) {
    n in live && n !in s && SameDigest(s, live, live[n]) == {o}
  }

  ghost function RestOld(s: State, live: Live, b: Base): set<Key> {
    set o | o in Olds(s, live, b) && forall n :: n in News(s, live, b) ==> !ByDigest(s, live, o, n)
  }

  ghost function RestNew(s: State, live: Live, b: Base): set<Key> {
    set n | n in News(s, live, b) && forall o :: o in Olds(s, live, b) ==> !ByDigest(s, live, o, n)
  }

  /** The last unmatched old and new key of a base pair up (a bound edited while re-keyed). */
  ghost predicate ByElimination(s: State, live: Live, o: Key, n: Key) {
    n in live && n !in s &&
    var b := live[n].ThresholdKey();
    RestOld(s, live, b) == {o} && RestNew(s, live, b) == {n}
  }

  /** State key `o` is carried to live key `n`. */
  ghost predicate Pairs(s: State, live: Live, o: Key, n: Key) {
    ByDigest(s, live, o, n) || ByElimination(s, live, o, n)
  }

  ghost predicate IsRenaming(s: State, live: Live, renamed: map<Key, Key>) {
    forall o, n :: Pairs(s, live, o, n) <==> (o in renamed && renamed[o] == n)
  }

  /** The record `k` holds after migration, if any. */
  ghost predicate HasRecord(s: State, live: Live, k: Key) {
    if k in s then forall n :: !Pairs(s, live, k, n) else exists o :: Pairs(s, live, o, k)
  }

  ghost function RecordOf(s: State, live: Live, k: Key): Rec
    requires HasRecord(s, live, k)
  {
    if k in s then Refreshed(s, live)[k]
    else
      var o :| Pairs(s, live, o, k);
      PairFacts(s, live, o, k);
      s[o].(ident := Some(IdentOf(live[k])))
  }

  /** The state after migration. */
  ghost function MigratedState(s: State, live: Live): State {
    map k | k in s.Keys + live.Keys && HasRecord(s, live, k) :: RecordOf(s, live, k)
  }

  // ---------- the relation ----------

  lemma PairFacts(s: State, live: Live, o: Key, n: Key)
    requires Pairs(s, live, o, n)
    ensures o in s && o !in live && n in live && n !in s
    ensures o in Olds(s, live, live[n].ThresholdKey())
  {
    if ByDigest(s, live, o, n) {
      assert o in SameDigest(s, live, live[n]);
    } else {
      assert o in RestOld(s, live, live[n].ThresholdKey());
    }
  }

  /** No old key is claimed by two new keys: the source's "two claims" branch is dead. */
  lemma NoTwoClaims(s: State, live: Live, o: Key, m: Key, n: Key)
    requires ProperKeys(live) && ByDigest(s, live, o, m) && ByDigest(s, live, o, n)
    ensures m == n
  {
    assert o in SameDigest(s, live, live[m]) && o in SameDigest(s, live, live[n]);
  }

  lemma PairingIsInjective(s: State, live: Live, o: Key, n: Key, p: Key, m: Key)
    requires ProperKeys(live) && Pairs(s, live, o, n) && Pairs(s, live, p, m)
    ensures o == p <==> n == m
  {
    PairFacts(s, live, o, n);
    PairFacts(s, live, p, m);
    var b := live[n].ThresholdKey();
    if o == p || n == m {
      assert live[m].ThresholdKey() == b;
      assert n in News(s, live, b) && m in News(s, live, b);
      if ByDigest(s, live, o, n) && ByDigest(s, live, p, m) {
        if o == p { NoTwoClaims(s, live, o, m, n); }
      }
    }
  }

  // ---------- the method ----------

  /** `pairs` is exactly the digest matching of the new keys in `done`. */
  ghost predicate DigestPairs(s: State, live: Live, done: set<Key>, pairs: map<Key, Key>) {
    forall o, n :: (o in pairs && pairs[o] == n) <==> n in done && ByDigest(s, live, o, n)
  }

  ghost predicate Unmatched(s: State, live: Live, n: Key) {
    forall o :: !ByDigest(s, live, o, n)
  }

  lemma MatchOne(s: State, live: Live, done: set<Key>, pairs: map<Key, Key>, o: Key, n: Key)
    requires ProperKeys(live) && DigestPairs(s, live, done, pairs) && n !in done && ByDigest(s, live, o, n)
    ensures o !in pairs && DigestPairs(s, live, done + {n}, pairs[o := n]) && !Unmatched(s, live, n)
  {
    if o in pairs { NoTwoClaims(s, live, o, pairs[o], n); }
    forall p, m
      ensures (p in pairs[o := n] && pairs[o := n][p] == m) <==> m in done + {n} && ByDigest(s, live, p, m)
    {
      if ByDigest(s, live, o, m) { NoTwoClaims(s, live, o, m, n); }
    }
  }

  lemma MatchNone(s: State, live: Live, done: set<Key>, pairs: map<Key, Key>, n: Key)
    requires DigestPairs(s, live, done, pairs) && n in live && |SameDigest(s, live, live[n])| != 1
    ensures DigestPairs(s, live, done + {n}, pairs) && Unmatched(s, live, n)
  {
  }

  method MatchDigests(s: State, live: Live, news: set<Key>) returns (pairs: map<Key, Key>, restNew: set<Key>)
    requires ProperKeys(live) && forall n :: n in news ==> n in live && n !in s
    ensures DigestPairs(s, live, news, pairs)
    ensures restNew <= news && forall n :: n in news ==> (n in restNew <==> Unmatched(s, live, n))
  {
    hide DigestPairs, Unmatched, ProperKeys, SameDigest;
    pairs, restNew := map[], {};
    var todo, twoClaims := news, false;
    NothingMatched(s, live);
    assert news - todo == {};
    while todo != {}
      invariant todo <= news && restNew <= news - todo && !twoClaims
      invariant DigestPairs(s, live, news - todo, pairs)
      invariant forall n :: n in news - todo ==> (n in restNew <==> Unmatched(s, live, n))
    {
      var n :| n in todo;
      var same := SameDigest(s, live, live[n]);
      ghost var done := news - todo;
      if |same| == 1 {
        var o :| o in same;
        OnlyOne(same, o);
        MatchOne(s, live, done, pairs, o, n);
        if o in pairs {
          twoClaims := true;
        } else {
          pairs := pairs[o := n];
        }
      } else {
        MatchNone(s, live, done, pairs, n);
        restNew := restNew + {n};
      }
      todo := todo - {n};
      assert news - todo == done + {n};
    }
    assert news - todo == news;
    if twoClaims {
      pairs, restNew := map[], news;
    }
  }

  lemma NothingMatched(s: State, live: Live)
    ensures DigestPairs(s, live, {}, map[])
  {
  }

  /** `pairs` is exactly the pairing of base `b`. */
  ghost predicate GroupPairs(s: State, live: Live, b: Base, pairs: map<Key, Key>) {
    forall o, n :: (o in pairs && pairs[o] == n) <==> Pairs(s, live, o, n) && live[n].ThresholdKey() == b
  }

  /** The pairs of one base: old key to new key. */
  method PairGroup(s: State, live: Live, b: Base) returns (pairs: map<Key, Key>)
    requires ProperKeys(live)
    ensures GroupPairs(s, live, b, pairs)
  {
    hide GroupPairs, DigestPairs, Unmatched, ProperKeys, RestOld, RestNew, Olds;
    var olds, news := Olds(s, live, b), News(s, live, b);
    if olds == {} {
      NoOlds(s, live, b);
      return map[];
    }
    var restNew;
    pairs, restNew := MatchDigests(s, live, news);
    var restOld := set o | o in olds && o !in pairs;
    RestsComputed(s, live, b, pairs, restOld, restNew);
    if |restOld| == 1 && |restNew| == 1 {
      var o :| o in restOld;
      var n :| n in restNew;
      OnlyOne(restOld, o);
      OnlyOne(restNew, n);
      LastTwoPair(s, live, b, pairs, o, n);
      pairs := pairs[o := n];
    } else {
      NoLastTwo(s, live, b, pairs);
    }
  }

  lemma LastTwoPair(s: State, live: Live, b: Base, pairs: map<Key, Key>, o: Key, n: Key)
    requires DigestPairs(s, live, News(s, live, b), pairs) && RestOld(s, live, b) == {o} && RestNew(s, live, b) == {n}
    ensures GroupPairs(s, live, b, pairs[o := n])
  {
    hide RestOld, RestNew;
    RestIsUnpaired(s, live, b, o, n);
    forall p, m
      ensures (p in pairs[o := n] && pairs[o := n][p] == m) <==> Pairs(s, live, p, m) && live[m].ThresholdKey() == b
    {
      PairsOfGroup(s, live, b, p, m);
      assert p in pairs && pairs[p] == m <==> m in News(s, live, b) && ByDigest(s, live, p, m);
    }
  }

  lemma RestIsUnpaired(s: State, live: Live, b: Base, o: Key, n: Key)
    requires o in RestOld(s, live, b) && n in RestNew(s, live, b)
    ensures n in News(s, live, b) && forall m :: m in News(s, live, b) ==> !ByDigest(s, live, o, m)
  {
  }

  lemma NoLastTwo(s: State, live: Live, b: Base, pairs: map<Key, Key>)
    requires DigestPairs(s, live, News(s, live, b), pairs)
    requires forall o, n :: !(RestOld(s, live, b) == {o} && RestNew(s, live, b) == {n})
    ensures GroupPairs(s, live, b, pairs)
  {
    hide RestOld, RestNew;
    forall p, m
      ensures (p in pairs && pairs[p] == m) <==> Pairs(s, live, p, m) && live[m].ThresholdKey() == b
    {
      PairsOfGroup(s, live, b, p, m);
    }
  }

  /** The pairs of a base, by what its loop computes. */
  lemma PairsOfGroup(s: State, live: Live, b: Base, o: Key, n: Key)
    ensures Pairs(s, live, o, n) && live[n].ThresholdKey() == b <==>
            n in News(s, live, b) &&
              (ByDigest(s, live, o, n) || (RestOld(s, live, b) == {o} && RestNew(s, live, b) == {n}))
  {
    hide RestOld, RestNew, SameDigest;
  }

  lemma OnlyOne<T>(s: set<T>, x: T)
    requires x in s
    ensures |s| == 1 <==> s == {x}
  {
    if |s| == 1 {
      assert |s - {x}| == 0;
    }
  }

  lemma NoOlds(s: State, live: Live, b: Base)
    requires Olds(s, live, b) == {}
    ensures GroupPairs(s, live, b, map[])
  {
    forall o, n | Pairs(s, live, o, n)
      ensures live[n].ThresholdKey() != b
    {
      PairFacts(s, live, o, n);
    }
  }

  lemma RestsComputed(s: State, live: Live, b: Base, pairs: map<Key, Key>, restOld: set<Key>, restNew: set<Key>)
    requires DigestPairs(s, live, News(s, live, b), pairs)
    requires restOld == set o | o in Olds(s, live, b) && o !in pairs
    requires restNew <= News(s, live, b)
    requires forall n :: n in News(s, live, b) ==> (n in restNew <==> Unmatched(s, live, n))
    ensures restOld == RestOld(s, live, b) && restNew == RestNew(s, live, b)
    ensures (|restOld| == 1 && |restNew| == 1) || forall o, n :: !(restOld == {o} && restNew == {n})
  {
    forall o, n
      ensures ByDigest(s, live, o, n) && n in News(s, live, b) ==> o in Olds(s, live, b)
    {
      if ByDigest(s, live, o, n) {
        assert o in SameDigest(s, live, live[n]);
      }
    }
    forall o | o in Olds(s, live, b)
      ensures o in restOld <==> o in RestOld(s, live, b)
    {
      if o in pairs {
        assert ByDigest(s, live, o, pairs[o]);
      }
    }
  }

  // ---------- what migration keeps ----------

  ghost predicate Leaves(s: State, live: Live, o: Key) {
    exists n :: Pairs(s, live, o, n)
  }

  /** Where the record at `k` is after migration. */
  ghost function Dest(s: State, live: Live, k: Key): Key {
    if Leaves(s, live, k) then var n :| Pairs(s, live, k, n); n else k
  }

  /** Migration is a bijection between the records: none is lost, overwritten or merged,
      and only the identity is rewritten. */
  lemma RecordsMoveIntact(s: State, live: Live, k: Key)
    requires ProperKeys(live) && k in s
    ensures var d := Dest(s, live, k);
            && d in MigratedState(s, live)
            && MigratedState(s, live)[d] == s[k].(ident := MigratedState(s, live)[d].ident)
            && (d != k ==>
                  && k !in live && d in live && d !in s
                  && d.base == s[k].ident.value.base && d.base.service == s[k].service)
  {
    if Leaves(s, live, k) {
      var n := Dest(s, live, k);
      PairFacts(s, live, k, n);
      var o :| Pairs(s, live, o, n);
      PairingIsInjective(s, live, k, n, o, n);
      assert HasRecord(s, live, n);
      forall p | Pairs(s, live, p, n)
        ensures p == k
      {
        PairingIsInjective(s, live, k, n, p, n);
      }
    }
  }

  lemma RecordsComeFromState(s: State, live: Live, m: Key) returns (k: Key)
    requires ProperKeys(live) && m in MigratedState(s, live)
    ensures k in s && Dest(s, live, k) == m
  {
    if m in s {
      k := m;
    } else {
      k :| Pairs(s, live, k, m);
      PairFacts(s, live, k, m);
      PairingIsInjective(s, live, k, m, k, Dest(s, live, k));
    }
  }

  lemma DestInjective(s: State, live: Live, k: Key, l: Key)
    requires ProperKeys(live) && k in s && l in s && Dest(s, live, k) == Dest(s, live, l)
    ensures k == l
  {
    if Leaves(s, live, k) { PairFacts(s, live, k, Dest(s, live, k)); }
    if Leaves(s, live, l) { PairFacts(s, live, l, Dest(s, live, l)); }
    if Leaves(s, live, k) && Leaves(s, live, l) {
      PairingIsInjective(s, live, k, Dest(s, live, k), l, Dest(s, live, l));
    }
  }

  /** Keys whose hysteresis state is `x`. */
  function Holding(s: State, x: KeyState): set<Key> {
    set k | k in s && s[k].ks == x
  }

  /** The multiset of hysteresis states is conserved. */
  lemma HysteresisStatesConserved(s: State, live: Live, x: KeyState)
    requires ProperKeys(live)
    ensures |Holding(MigratedState(s, live), x)| == |Holding(s, x)|
  {
    var from, to := Holding(s, x), Holding(MigratedState(s, live), x);
    forall k | k in from
      ensures Dest(s, live, k) in to
    {
      RecordsMoveIntact(s, live, k);
    }
    forall m | m in to
      ensures exists k :: k in from && Dest(s, live, k) == m
    {
      var k := RecordsComeFromState(s, live, m);
      RecordsMoveIntact(s, live, k);
    }
    forall k, l | k in from && l in from && Dest(s, live, k) == Dest(s, live, l)
      ensures k == l
    {
      DestInjective(s, live, k, l);
    }
    BijectionCardinality(from, to, (k: Key) => Dest(s, live, k));
  }

  lemma {:induction false} BijectionCardinality<T(!new)>(from: set<T>, to: set<T>, f: T -> T)
    requires forall k :: k in from ==> f(k) in to
    requires forall k, l :: k in from && l in from && f(k) == f(l) ==> k == l
    requires forall m :: m in to ==> exists k :: k in from && f(k) == m
    ensures |from| == |to|
  {
    if from == {} {
      assert to == {};
    } else {
      var k :| k in from;
      BijectionCardinality(from - {k}, to - {f(k)}, f);
    }
  }

  /** Old key `o` of base `b`: it has state, is not served, and says so. */
  predicate Vanished(s: State, live: Live, b: Base, o: Key) {
    o in s && o !in live && s[o].service == b.service && s[o].ident.Some? && s[o].ident.value.base == b
  }

  /** New key `n` of base `b`: it is served and has no state. */
  predicate Appeared(s: State, live: Live, b: Base, n: Key) {
    n in live && n !in s && Base(live[n].service, live[n].t.kind, live[n].t.identity) == b
  }

  predicate SameBounds(s: State, live: Live, o: Key, n: Key)
    requires n in live && o in s && s[o].ident.Some?
  {
    s[o].ident.value.digest == live[n].t.digest
  }

  lemma OldsAndNews(s: State, live: Live, b: Base, k: Key)
    ensures k in Olds(s, live, b) <==> Vanished(s, live, b, k)
    ensures k in News(s, live, b) <==> Appeared(s, live, b, k)
    ensures Appeared(s, live, b, k) ==> live[k].ThresholdKey() == b
  {
  }

  /** A match by digest is one of bounds, within one base. */
  lemma MatchedByBounds(s: State, live: Live, b: Base, o: Key, n: Key)
    requires Vanished(s, live, b, o) || Appeared(s, live, b, n)
    ensures ByDigest(s, live, o, n) ==> Vanished(s, live, b, o) && Appeared(s, live, b, n) && SameBounds(s, live, o, n)
    ensures ByDigest(s, live, o, n) ==> SameDigest(s, live, live[n]) == {o} && n in News(s, live, b)
  {
    if ByDigest(s, live, o, n) { assert o in SameDigest(s, live, live[n]); }
  }

  /** Of one base, the only key that vanished hands its record to the only one that appeared,
      whether the bounds are the same or edited. */
  lemma LastOneInherits(s: State, live: Live, b: Base, o: Key, n: Key)
    requires ProperKeys(live) && Vanished(s, live, b, o) && Appeared(s, live, b, n)
    requires forall k :: Vanished(s, live, b, k) ==> k == o
    requires forall k :: Appeared(s, live, b, k) ==> k == n
    ensures n in MigratedState(s, live) && MigratedState(s, live)[n] == s[o].(ident := Some(IdentOf(live[n])))
    ensures o !in MigratedState(s, live)
  {
    forall k { OldsAndNews(s, live, b, k); }
    hide Vanished, Appeared;
    assert Olds(s, live, b) == {o} && News(s, live, b) == {n};
    if SameDigest(s, live, live[n]) == {o} {
      assert ByDigest(s, live, o, n);
    } else {
      forall k { MatchedByBounds(s, live, b, o, k); }
      assert RestOld(s, live, b) == {o} && RestNew(s, live, b) == {n};
      assert ByElimination(s, live, o, n);
    }
    assert Pairs(s, live, o, n);
    PairFacts(s, live, o, n);
    UniquePair(s, live, o, n);
  }

  lemma UniquePair(s: State, live: Live, o: Key, n: Key)
    requires ProperKeys(live) && Pairs(s, live, o, n)
    ensures n in live && n !in s && o in s && o !in live && !HasRecord(s, live, o)
    ensures HasRecord(s, live, n) && RecordOf(s, live, n) == s[o].(ident := Some(IdentOf(live[n])))
  {
    PairFacts(s, live, o, n);
    forall p | Pairs(s, live, p, n)
      ensures p == o
    {
      PairingIsInjective(s, live, o, n, p, n);
    }
  }

  /** `o` has the bounds of no key of the base that appeared, or `n` those of none that vanished. */
  ghost predicate NoMatch(s: State, live: Live, b: Base, k: Key) {
    if k in live then forall o :: Vanished(s, live, b, o) ==> !SameBounds(s, live, o, k)
    else k in s && s[k].ident.Some? && forall n :: Appeared(s, live, b, n) ==> !SameBounds(s, live, k, n)
  }

  /** Nothing is guessed: where two keys of a base vanished, or two appeared, that match none by
      their bounds, none of them passes anything on. */
  lemma AmbiguousStaysPut(s: State, live: Live, b: Base, o: Key, n: Key, other: Key)
    requires Vanished(s, live, b, o) && Appeared(s, live, b, n) && NoMatch(s, live, b, o) && NoMatch(s, live, b, n)
    requires (Vanished(s, live, b, other) && other != o) || (Appeared(s, live, b, other) && other != n)
    requires NoMatch(s, live, b, other)
    ensures !Pairs(s, live, o, n)
  {
    forall k { OldsAndNews(s, live, b, k); }
    MatchedByBounds(s, live, b, o, n);
    NoMatchNoDigest(s, live, b, o);
    forall k
      ensures !ByDigest(s, live, other, k) && !ByDigest(s, live, k, other)
    {
      NoMatchNoDigest(s, live, b, other);
    }
    if Vanished(s, live, b, other) && other != o {
      assert other in RestOld(s, live, b);
    } else {
      assert other in RestNew(s, live, b);
    }
  }

  lemma NoMatchNoDigest(s: State, live: Live, b: Base, k: Key)
    requires NoMatch(s, live, b, k) && (Vanished(s, live, b, k) || Appeared(s, live, b, k))
    ensures forall x :: !ByDigest(s, live, k, x) && !ByDigest(s, live, x, k)
  {
    forall x
      ensures !ByDigest(s, live, k, x) && !ByDigest(s, live, x, k)
    {
      if Vanished(s, live, b, k) { MatchedByBounds(s, live, b, k, x); }
      if Appeared(s, live, b, k) { MatchedByBounds(s, live, b, x, k); }
    }
  }

  /** Old keys are dead and new keys live, so renaming one pair after the other equals
      renaming them all at once. */
  lemma RenamingIsSimultaneous(s: State, live: Live, o: Key, n: Key, p: Key, m: Key)
    requires ProperKeys(live) && Pairs(s, live, o, n) && Pairs(s, live, p, m)
    ensures o != m && n != p
  {
    PairFacts(s, live, o, n);
    PairFacts(s, live, p, m);
  }

  /** A second migration against the same entries renames nothing. */
  lemma SecondMigrationRenamesNothing(s: State, live: Live, o: Key, n: Key)
    requires ProperKeys(live)
    ensures !Pairs(MigratedState(s, live), live, o, n)
  {
    var t := MigratedState(s, live);
    if Pairs(t, live, o, n) {
      PairFacts(t, live, o, n);
      Unpaired(s, live, o, n);
      if ByDigest(t, live, o, n) {
        NoDigestPairLeft(s, live, o, n);
      } else {
        NoEliminationLeft(s, live, o, n);
      }
    }
  }

  lemma SecondMigrationIsIdentity(s: State, live: Live)
    requires ProperKeys(live)
    ensures MigratedState(MigratedState(s, live), live) == MigratedState(s, live)
  {
    var t := MigratedState(s, live);
    forall o, n
      ensures !Pairs(t, live, o, n)
    {
      SecondMigrationRenamesNothing(s, live, o, n);
    }
    forall k | k in t && k in live
      ensures t[k].ident == Some(IdentOf(live[k]))
    {
    }
  }

  /** A dead key still present, and a live key still without state, took part in no pair. */
  lemma Unpaired(s: State, live: Live, o: Key, n: Key)
    requires o in MigratedState(s, live) && o !in live && n in live && n !in MigratedState(s, live)
    ensures o in s && MigratedState(s, live)[o] == s[o] && !Leaves(s, live, o)
    ensures n !in s && forall p :: !Pairs(s, live, p, n)
    ensures forall m :: !Pairs(s, live, o, m)
    ensures o in Olds(s, live, live[n].ThresholdKey()) ==> o in RestOld(s, live, live[n].ThresholdKey())
    ensures n in RestNew(s, live, live[n].ThresholdKey())
  {
    if n in s {
      if m :| Pairs(s, live, n, m) {
        PairFacts(s, live, n, m);
      }
      assert HasRecord(s, live, n);
    }
    if p :| Pairs(s, live, p, n) {
      assert HasRecord(s, live, n);
    }
    forall m
      ensures !Pairs(s, live, o, m)
    {
    }
    forall m
      ensures !ByDigest(s, live, o, m)
    {
      assert !Pairs(s, live, o, m);
    }
    forall p
      ensures !ByDigest(s, live, p, n)
    {
      assert !Pairs(s, live, p, n);
    }
  }

  lemma NoDigestPairLeft(s: State, live: Live, o: Key, n: Key)
    requires ProperKeys(live)
    requires o in MigratedState(s, live) && o !in live && n in live && n !in MigratedState(s, live)
    ensures !ByDigest(MigratedState(s, live), live, o, n)
  {
    Unpaired(s, live, o, n);
    assert !Pairs(s, live, o, n);
  }

  lemma NoEliminationLeft(s: State, live: Live, o: Key, n: Key)
    requires ProperKeys(live)
    requires o in MigratedState(s, live) && o !in live && n in live && n !in MigratedState(s, live)
    ensures !ByElimination(MigratedState(s, live), live, o, n)
  {
    var t, b := MigratedState(s, live), live[n].ThresholdKey();
    if ByElimination(t, live, o, n) {
      Unpaired(s, live, o, n);
      assert o in RestOld(t, live, b);
      assert !Pairs(s, live, o, n);
      if p :| p in RestOld(s, live, b) && p != o {
        if m :| Pairs(s, live, p, m) {
          PairFacts(s, live, p, m);
        } else {
          RestOldLeft(s, live, p, b);
        }
      } else {
        var m :| m in RestNew(s, live, b) && m != n;
        if p :| Pairs(s, live, p, m) {
          PairFacts(s, live, p, m);
        } else {
          RestNewLeft(s, live, m, b);
        }
      }
      assert false;
    }
  }

  lemma RestOldLeft(s: State, live: Live, p: Key, b: Base)
    requires ProperKeys(live) && p in Olds(s, live, b) && !Leaves(s, live, p)
    ensures p in RestOld(MigratedState(s, live), live, b)
  {
    var t := MigratedState(s, live);
    assert HasRecord(s, live, p) && t[p] == s[p];
    forall m | m in News(t, live, b)
      ensures !ByDigest(t, live, p, m)
    {
      NoDigestPairLeft(s, live, p, m);
    }
  }

  lemma RestNewLeft(s: State, live: Live, m: Key, b: Base)
    requires ProperKeys(live) && m in News(s, live, b) && forall p :: !Pairs(s, live, p, m)
    ensures m in RestNew(MigratedState(s, live), live, b)
  {
    var t := MigratedState(s, live);
    assert m !in t;
    forall p | p in Olds(t, live, b)
      ensures !ByDigest(t, live, p, m)
    {
      NoDigestPairLeft(s, live, p, m);
    }
  }
}
