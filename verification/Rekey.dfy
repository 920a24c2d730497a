/** Following one threshold entry through re-keys (measure/thresholds/phase.py).

    While its service is served in full and runs complete, an entry that has been evaluated
    once moves through its own events only: adding, removing, editing or reordering
    same-identity siblings never touches its hysteresis state. */
module Rekey {
  import opened Wrappers
  import opened Hysteresis
  import opened ThresholdKeys
  import opened Migration
  import opened ThresholdPhase

  /** One call of `run_threshold_phase` (no steps: `retire_thresholds`). */
  datatype Cycle = Cycle(ms: seq<Manifest>, steps: seq<Step>, completed: bool, env: Env) {
    ghost function Live(): map<Key, ThresholdKeys.Entry> { EntriesOf(AllServed(ms)) }
    ghost predicate Ok() { Schedule(Live(), steps) }
    ghost function Next(s: State): State
      requires Ok()
    {
      ScheduledKeys(Live(), steps);
      PhaseState(s, Live(), PresentServices(ms), Finished(steps), completed, env)
    }
    ghost function KeyOf(x: ThresholdKeys.Entry): Key { KeyFor(AllServed(ms), x) }
    /** What this cycle does with entry `x`. */
    ghost function OwnEvent(x: ThresholdKeys.Entry): Event { KeyEvent(steps, env, KeyOf(x)) }
    /** Core has a breach verdict for key `k` from this cycle, answered or not. */
    ghost predicate Stored(s: State, k: Key) {
      Stores(StateOf(MigratedState(s, Live()), k), KeyEvent(steps, env, k), env.rearm)
    }
    /** `x` is served, its service in full, and the cycle reaches the end. */
    ghost predicate Serves(x: ThresholdKeys.Entry) {
      && Ok() && completed
      && x in AllServed(ms) && DigestsFaithful(AllServed(ms))
      && FullyPresent(ms, x.service)
    }
  }

  ghost predicate Follows(c: Cycle, s: State, s': State) {
    c.Ok() && s' == c.Next(s)
  }

  /** `states` are the dictionary before, between and after the cycles, from an empty start. */
  ghost predicate IsRun(cycles: seq<Cycle>, states: seq<State>) {
    && |states| == |cycles| + 1 && states[0] == map[]
    && forall i :: 0 <= i < |cycles| ==> Follows(cycles[i], states[i], states[i + 1])
  }

  // ---------- invariants of the dictionary ----------

  /** Every record says what its key says. */
  ghost predicate Consistent(s: State) {
    forall k :: k in s ==> s[k].service == k.base.service && s[k].ident.Some? && s[k].ident.value.base == k.base
  }

  /** The records of base `b` are exactly some of its live entries, with their digests. */
  ghost predicate Settled(s: State, live: Live, b: Base) {
    forall k :: k in s && k.base == b ==> k in live && s[k].ident == Some(IdentOf(live[k]))
  }

  lemma MigrationIdentifies(s: State, live: Live, k: Key)
    requires ProperKeys(live) && Consistent(s) && k in MigratedState(s, live)
    ensures var r := MigratedState(s, live)[k];
            && r.service == k.base.service && r.ident.Some? && r.ident.value.base == k.base
            && (k in live ==> r.ident == Some(IdentOf(live[k])))
  {
    var o := RecordsComeFromState(s, live, k);
    RecordsMoveIntact(s, live, o);
    if k in s {
      assert RecordOf(s, live, k) == Refreshed(s, live)[k];
    }
  }

  lemma PhaseIdentifies(s: State, live: Live, present: set<string>, done: map<Key, Attempt>,
                        completed: bool, env: Env, k: Key)
    requires ProperKeys(live) && Consistent(s) && done.Keys <= live.Keys
    requires k in PhaseState(s, live, present, done, completed, env)
    ensures var r := PhaseState(s, live, present, done, completed, env)[k];
            && r.service == k.base.service && r.ident.Some? && r.ident.value.base == k.base
            && (k in live ==> r.ident == Some(IdentOf(live[k])))
            && (completed && k.base.service in present ==> k in live)
  {
    var m := MigratedState(s, live);
    assert RecordAfter(m, live, done, env, k) == Some(PhaseState(s, live, present, done, completed, env)[k]);
    if k in m { MigrationIdentifies(s, live, k); }
  }

  lemma CycleKeepsConsistent(c: Cycle, s: State)
    requires c.Ok() && Consistent(s)
    ensures Consistent(c.Next(s))
  {
    ServedKeysAreProper(c.ms);
    ScheduledKeys(c.Live(), c.steps);
    forall k | k in c.Next(s)
      ensures c.Next(s)[k].service == k.base.service
      ensures c.Next(s)[k].ident.Some? && c.Next(s)[k].ident.value.base == k.base
    {
      PhaseIdentifies(s, c.Live(), PresentServices(c.ms), Finished(c.steps), c.completed, c.env, k);
    }
  }

  /** After a complete cycle nothing stale is left of a fully served service. */
  lemma CycleSettles(c: Cycle, s: State, b: Base)
    requires c.Ok() && c.completed && Consistent(s) && FullyPresent(c.ms, b.service)
    ensures Settled(c.Next(s), c.Live(), b)
  {
    ServedKeysAreProper(c.ms);
    ScheduledKeys(c.Live(), c.steps);
    assert b.service in PresentServices(c.ms) by {
      var i :| 0 <= i < |c.ms| && Lists(c.ms[i], b.service);
    }
    forall k | k in c.Next(s) && k.base == b
      ensures k in c.Live() && c.Next(s)[k].ident == Some(IdentOf(c.Live()[k]))
    {
      PhaseIdentifies(s, c.Live(), PresentServices(c.ms), Finished(c.steps), c.completed, c.env, k);
    }
  }

  // ---------- one re-key ----------

  /** A live entry with a record keeps it under its new key, whatever its siblings do. */
  lemma RekeyKeepsRecord(s: State, was: Live, live: Live, k: Key, k': Key)
    requires ProperKeys(was) && ProperKeys(live) && Consistent(s)
    requires k in was && k' in live && was[k] == live[k'] && Settled(s, was, k.base)
    requires k in s
    ensures k' in MigratedState(s, live) && MigratedState(s, live)[k'].ks == s[k].ks
  {
    if k' == k {
      KeptKeyKeepsRecord(s, live, k);
    } else {
      assert k' !in s && k !in live;
      assert k in SameDigest(s, live, live[k']);
      forall o | o in SameDigest(s, live, live[k'])
        ensures o == k
      {
        assert o.base == k.base && o in was;
      }
      assert ByDigest(s, live, k, k');
      UniqueSource(s, live, k, k');
    }
  }

  lemma KeptKeyKeepsRecord(s: State, live: Live, k: Key)
    requires k in s && k in live
    ensures k in MigratedState(s, live) && MigratedState(s, live)[k].ks == s[k].ks
  {
    forall n
      ensures !Pairs(s, live, k, n)
    {
      if Pairs(s, live, k, n) { PairFacts(s, live, k, n); }
    }
  }

  /** A never-evaluated entry takes over the state of its one vanished sibling: an edit of the
      bounds and a replacement of the entry look alike. */
  lemma ReplacementInheritsState(s: State, live: Live, o: Key, n: Key)
    requires ProperKeys(live) && ByElimination(s, live, o, n)
    ensures o in s && o !in live && n !in s
    ensures n in MigratedState(s, live) && MigratedState(s, live)[n].ks == s[o].ks && o !in MigratedState(s, live)
  {
    assert Pairs(s, live, o, n);
    PairFacts(s, live, o, n);
    UniqueSource(s, live, o, n);
  }

  lemma FollowOneCycle(c: Cycle, was: Live, s: State, k: Key, x: ThresholdKeys.Entry)
    requires c.Serves(x) && ProperKeys(was) && Consistent(s)
    requires k in was && was[k] == x && Settled(s, was, k.base) && k in s
    ensures c.KeyOf(x) in c.Next(s)
    ensures c.Next(s)[c.KeyOf(x)].ks == Commit(s[k].ks, c.OwnEvent(x), c.env.rearm)
  {
    hide MigratedState, PhaseState, Commit, KeyEvent, Settled, Consistent, DigestsFaithful, FullyPresent;
    ServedKeysAreProper(c.ms);
    FaithfulEntry(AllServed(c.ms), x);
    RekeyKeepsRecord(s, was, c.Live(), k, c.KeyOf(x));
    LiveKeyMoves(c, s, c.KeyOf(x));
  }

  /** A live key that holds a record after migration moves by its event of the cycle. */
  lemma LiveKeyMoves(c: Cycle, s: State, k: Key)
    requires c.Ok() && k in c.Live() && k in MigratedState(s, c.Live())
    ensures k in c.Next(s)
    ensures c.Next(s)[k].ks == Commit(MigratedState(s, c.Live())[k].ks, KeyEvent(c.steps, c.env, k), c.env.rearm)
  {
    hide MigratedState, Applied, Commit, KeyEvent;
    ScheduledKeys(c.Live(), c.steps);
    AppliedIsOneEvent(MigratedState(s, c.Live()), c.Live(), c.steps, c.env, k);
    AppliedKeepsKeys(MigratedState(s, c.Live()), c.Live(), Finished(c.steps), c.env, k);
  }

  lemma AppliedKeepsKeys(s: State, live: Live, done: map<Key, Attempt>, env: Env, k: Key)
    requires done.Keys <= live.Keys && k in s
    ensures k in Applied(s, live, done, env)
  {
  }

  lemma FaithfulEntry(served: seq<ThresholdKeys.Entry>, x: ThresholdKeys.Entry)
    requires x in served && DigestsFaithful(served)
    ensures KeyFor(served, x) in EntriesOf(served) && EntriesOf(served)[KeyFor(served, x)] == x
  {
    EntriesAreKeyed(served);
    var y := EntriesOf(served)[KeyFor(served, x)];
    assert KeyFor(served, y) == KeyFor(served, x);
  }

  // ---------- whole runs ----------

  lemma {:induction false} AlwaysConsistent(cycles: seq<Cycle>, states: seq<State>, n: nat)
    requires IsRun(cycles, states) && n <= |cycles|
    ensures Consistent(states[n])
  {
    if n > 0 {
      AlwaysConsistent(cycles, states, n - 1);
      assert Follows(cycles[n - 1], states[n - 1], states[n]);
      CycleKeepsConsistent(cycles[n - 1], states[n - 1]);
    }
  }

  /** `chain` are the keys one record was held under after cycles `from`, `from` + 1, ...: it
      was created by the first of them, and each migration carried it on. */
  ghost predicate IsLife(cycles: seq<Cycle>, states: seq<State>, from: nat, chain: seq<Key>)
    requires |states| == |cycles| + 1 && from + |chain| <= |cycles|
  {
    && (forall j :: 0 <= j < |chain| ==> chain[j] in states[from + j + 1])
    && (chain != [] ==> chain[0] !in MigratedState(states[from], cycles[from].Live()))
    && (forall j :: 0 < j < |chain| ==> Carries(cycles[from + j], states[from + j], chain[j - 1], chain[j]))
  }

  ghost predicate Carries(c: Cycle, s: State, k: Key, k': Key) { k in s && Dest(s, c.Live(), k) == k' }

  /** What the cycles did with the keys of `chain`, each with the one it had. */
  ghost function EventsAlong(cycles: seq<Cycle>, from: nat, chain: seq<Key>): seq<Event>
    requires from + |chain| <= |cycles|
  {
    seq(|chain|, j requires 0 <= j < |chain| => KeyEvent(cycles[from + j].steps, cycles[from + j].env, chain[j]))
  }

  /** Over any run with one re-arm time, whatever was served, renamed, cut off or retired, the
      hysteresis state of every record is the one produced, from a fresh key, by what the
      cycles since its creation did with the key it was held under at the time. */
  lemma {:induction false} EveryRecordHasAHistory(cycles: seq<Cycle>, states: seq<State>, n: nat, k: Key, rearm: real)
    returns (from: nat, chain: seq<Key>)
    requires IsRun(cycles, states) && n <= |cycles| && k in states[n]
    requires forall i :: 0 <= i < n ==> cycles[i].env.rearm == rearm
    ensures from + |chain| == n && chain != [] && chain[|chain| - 1] == k && IsLife(cycles, states, from, chain)
    ensures states[n][k].ks == After(EventsAlong(cycles, from, chain), |chain|, rearm)
    decreases n
  {
    hide After, KeyEvent, MigratedState, PhaseState, Carries, IsLife, EventsAlong, Cycle.Ok, Cycle.Live;
    var c, s := cycles[n - 1], states[n - 1];
    assert Follows(c, s, states[n]);
    var o := RecordSource(c, s, k);
    if o.None? {
      from, chain := n - 1, [k];
      LifeBegins(cycles, states, n - 1, k);
      FreshHistory(rearm);
      AfterOneMore([], KeyEvent(c.steps, c.env, k), rearm);
      assert [] + [KeyEvent(c.steps, c.env, k)] == [KeyEvent(c.steps, c.env, k)];
    } else {
      var front;
      from, front := EveryRecordHasAHistory(cycles, states, n - 1, o.value, rearm);
      chain := front + [k];
      LifeGoesOn(cycles, states, from, front, k);
      AfterOneMore(EventsAlong(cycles, from, front), KeyEvent(c.steps, c.env, k), rearm);
    }
  }

  lemma LifeBegins(cycles: seq<Cycle>, states: seq<State>, from: nat, k: Key)
    requires |states| == |cycles| + 1 && from < |cycles| && k in states[from + 1]
    requires k !in MigratedState(states[from], cycles[from].Live())
    ensures IsLife(cycles, states, from, [k])
    ensures EventsAlong(cycles, from, [k]) == [KeyEvent(cycles[from].steps, cycles[from].env, k)]
  {
    hide MigratedState, KeyEvent;
  }

  lemma LifeGoesOn(cycles: seq<Cycle>, states: seq<State>, from: nat, front: seq<Key>, k: Key)
    requires |states| == |cycles| + 1 && front != [] && from + |front| < |cycles| && IsLife(cycles, states, from, front)
    requires k in states[from + |front| + 1]
    requires Carries(cycles[from + |front|], states[from + |front|], front[|front| - 1], k)
    ensures IsLife(cycles, states, from, front + [k])
    ensures |EventsAlong(cycles, from, front)| == |front|
    ensures var c := cycles[from + |front|];
            EventsAlong(cycles, from, front + [k]) == EventsAlong(cycles, from, front) + [KeyEvent(c.steps, c.env, k)]
  {
    hide Carries, MigratedState, KeyEvent;
    var chain := front + [k];
    forall j | 0 < j < |chain|
      ensures Carries(cycles[from + j], states[from + j], chain[j - 1], chain[j])
    {
      if j < |front| { assert Carries(cycles[from + j], states[from + j], front[j - 1], front[j]); }
    }
  }

  lemma FreshHistory(rearm: real)
    ensures After([], 0, rearm) == FRESH
  {
  }

  /** The record at `k` after a cycle carries on from the record the migration moved there, or
      from none. */
  lemma RecordSource(c: Cycle, s: State, k: Key) returns (o: Option<Key>)
    requires c.Ok() && k in c.Next(s)
    ensures if o.Some? then o.value in s && Carries(c, s, o.value, k) else k !in MigratedState(s, c.Live())
    ensures var ks := if o.Some? then s[o.value].ks else FRESH;
            c.Next(s)[k].ks == Commit(ks, KeyEvent(c.steps, c.env, k), c.env.rearm)
  {
    hide Applied, KeyEvent, MigratedState, Commit;
    ServedKeysAreProper(c.ms);
    ScheduledKeys(c.Live(), c.steps);
    var m := MigratedState(s, c.Live());
    AppliedIsOneEvent(m, c.Live(), c.steps, c.env, k);
    RetiringKeepsState(m, c, k);
    o := None;
    if k in m {
      var source := RecordsComeFromState(s, c.Live(), k);
      RecordsMoveIntact(s, c.Live(), source);
      o := Some(source);
    }
  }

  lemma RetiringKeepsState(m: State, c: Cycle, k: Key)
    requires Finished(c.steps).Keys <= c.Live().Keys
    requires var s' := Applied(m, c.Live(), Finished(c.steps), c.env);
             k in if c.completed then Retired(s', c.Live(), PresentServices(c.ms)) else s'
    ensures var s' := Applied(m, c.Live(), Finished(c.steps), c.env);
            k in s' && (if c.completed then Retired(s', c.Live(), PresentServices(c.ms)) else s')[k] == s'[k]
  {
    hide Applied;
  }

  /** What holds of entry `x` after a cycle that serves it. */
  lemma AfterServing(c: Cycle, s: State, s': State, x: ThresholdKeys.Entry)
    requires Consistent(s) && Follows(c, s, s') && c.Serves(x)
    ensures ProperKeys(c.Live()) && c.KeyOf(x) in c.Live() && c.Live()[c.KeyOf(x)] == x
    ensures c.KeyOf(x).base == x.ThresholdKey()
    ensures Consistent(s') && Settled(s', c.Live(), x.ThresholdKey())
  {
    ServedKeysAreProper(c.ms);
    FaithfulEntry(AllServed(c.ms), x);
    CycleKeepsConsistent(c, s);
    CycleSettles(c, s, x.ThresholdKey());
  }

  /** After cycle `c` left `s`, the record of `x` holds hysteresis state `ks`. */
  ghost predicate Holds(c: Cycle, s: State, x: ThresholdKeys.Entry, ks: KeyState) {
    c.KeyOf(x) in s && s[c.KeyOf(x)].ks == ks
  }

  lemma HoldsThroughOneCycle(cycles: seq<Cycle>, states: seq<State>, n: nat, x: ThresholdKeys.Entry, ks: KeyState)
    requires IsRun(cycles, states) && 0 < n < |cycles|
    requires cycles[n - 1].Serves(x) && cycles[n].Serves(x) && Holds(cycles[n - 1], states[n], x, ks)
    ensures Holds(cycles[n], states[n + 1], x, Commit(ks, cycles[n].OwnEvent(x), cycles[n].env.rearm))
  {
    hide KeyEvent, Commit, MigratedState, PhaseState, DigestsFaithful, FullyPresent;
    AlwaysConsistent(cycles, states, n - 1);
    assert Follows(cycles[n - 1], states[n - 1], states[n]) && Follows(cycles[n], states[n], states[n + 1]);
    AfterServing(cycles[n - 1], states[n - 1], states[n], x);
    FollowOneCycle(cycles[n], cycles[n - 1].Live(), states[n], cycles[n - 1].KeyOf(x), x);
  }

  /** A verdict is raised from the state the entry holds. */
  lemma VerdictFromHeldState(cycles: seq<Cycle>, states: seq<State>, n: nat, x: ThresholdKeys.Entry, ks: KeyState)
    requires IsRun(cycles, states) && 0 < n < |cycles|
    requires cycles[n - 1].Serves(x) && cycles[n].Serves(x) && Holds(cycles[n - 1], states[n], x, ks)
    ensures cycles[n].Stored(states[n], cycles[n].KeyOf(x)) <==>
            Stores(ks, cycles[n].OwnEvent(x), cycles[n].env.rearm)
  {
    AlwaysConsistent(cycles, states, n - 1);
    assert Follows(cycles[n - 1], states[n - 1], states[n]);
    AfterServing(cycles[n - 1], states[n - 1], states[n], x);
    ServedKeysAreProper(cycles[n].ms);
    FaithfulEntry(AllServed(cycles[n].ms), x);
    RekeyKeepsRecord(states[n], cycles[n - 1].Live(), cycles[n].Live(), cycles[n - 1].KeyOf(x), cycles[n].KeyOf(x));
  }

  /** The events of entry `x` in cycles m .. n-1. */
  ghost function OwnEvents(cycles: seq<Cycle>, x: ThresholdKeys.Entry, m: nat, n: nat): seq<Event>
    requires m <= n <= |cycles|
  {
    seq(n - m, i requires 0 <= i < n - m => cycles[m + i].OwnEvent(x))
  }

  /** Cycles m .. n-1 all serve `x`, with one re-arm time. */
  ghost predicate Served(cycles: seq<Cycle>, x: ThresholdKeys.Entry, m: nat, n: nat, rearm: real)
    requires n <= |cycles|
  {
    forall i :: m <= i < n ==> cycles[i].Serves(x) && cycles[i].env.rearm == rearm
  }

  /** A relation that every event carries on carries through a whole sequence of events. */
  lemma {:induction false} FoldAlong(holds: (nat, KeyState) -> bool, es: seq<Event>, n: nat, h: seq<Event>, rearm: real)
    requires n <= |es| && holds(0, After(h, |h|, rearm))
    requires forall i, ks :: 0 <= i < |es| && holds(i, ks) ==> holds(i + 1, Commit(ks, es[i], rearm))
    ensures holds(n, After(h + es[..n], |h| + n, rearm))
  {
    if n == 0 {
      assert h + es[..0] == h;
    } else {
      FoldAlong(holds, es, n - 1, h, rearm);
      var before := h + es[..n - 1];
      assert h + es[..n] == before + [es[n - 1]];
      AfterOneMore(before, es[n - 1], rearm);
    }
  }

  /** MAIN: over any run, from a cycle after which it has a record, an entry's hysteresis
      state is the one its own events produce; sibling additions, removals, bound edits and
      reorderings do not enter. `h` is any history that explains its state at cycle m. */
  lemma SiblingsNeverDisturb(cycles: seq<Cycle>, states: seq<State>, x: ThresholdKeys.Entry, m: nat, n: nat,
                             h: seq<Event>, rearm: real)
    requires IsRun(cycles, states)
    requires 0 < m <= n <= |cycles| && Served(cycles, x, m - 1, n, rearm)
    requires Holds(cycles[m - 1], states[m], x, After(h, |h|, rearm))
    ensures var own := h + OwnEvents(cycles, x, m, n); Holds(cycles[n - 1], states[n], x, After(own, |own|, rearm))
  {
    hide Holds, Cycle.Serves, Cycle.OwnEvent, Follows;
    var es := OwnEvents(cycles, x, m, n);
    var holds := (i: nat, ks: KeyState) => m + i <= n && Holds(cycles[m + i - 1], states[m + i], x, ks);
    forall i, ks | 0 <= i < |es| && holds(i, ks)
      ensures holds(i + 1, Commit(ks, es[i], rearm))
    {
      HoldsThroughOneCycle(cycles, states, m + i, x, ks);
    }
    FoldAlong(holds, es, |es|, h, rearm);
    assert es[..|es|] == es;
  }

  lemma AfterOneMore(h: seq<Event>, e: Event, rearm: real)
    ensures After(h + [e], |h| + 1, rearm) == Commit(After(h, |h|, rearm), e, rearm)
  {
    AfterPrefix(h, [e], |h|, rearm);
  }

  lemma {:induction false} AfterPrefix(h: seq<Event>, t: seq<Event>, n: nat, rearm: real)
    requires n <= |h|
    ensures After(h + t, n, rearm) == After(h, n, rearm)
  {
    if n > 0 { AfterPrefix(h, t, n - 1, rearm); }
  }

  /** An open breach raises no second verdict through any sequence of re-keys: a verdict core
      has from cycle n means the entry's own events recovered from every earlier accepted one. */
  lemma RekeyingNeverRefires(cycles: seq<Cycle>, states: seq<State>, x: ThresholdKeys.Entry, m: nat, n: nat,
                             h: seq<Event>, rearm: real)
    requires IsRun(cycles, states)
    requires 0 < m <= n < |cycles| && Served(cycles, x, m - 1, n + 1, rearm)
    requires Holds(cycles[m - 1], states[m], x, After(h, |h|, rearm))
    requires cycles[n].Stored(states[n], cycles[n].KeyOf(x))
    ensures var own := h + OwnEvents(cycles, x, m, n); Recovered(own, |own|, rearm)
  {
    hide Holds, Cycle.Serves, Cycle.OwnEvent, Follows;
    SiblingsNeverDisturb(cycles, states, x, m, n, h, rearm);
    var own := h + OwnEvents(cycles, x, m, n);
    VerdictFromHeldState(cycles, states, n, x, After(own, |own|, rearm));
    ArmedOnlyIfRecovered(own, |own|, rearm);
  }

  /** MAIN: two verdicts core has for one entry, from cycles i and n, enclose a full re-arm run
      of that entry's own events, whatever was re-keyed before, between and after - unless
      the answer to the first never arrived. */
  lemma VerdictsEncloseOwnRecovery(cycles: seq<Cycle>, states: seq<State>, x: ThresholdKeys.Entry,
                                   m: nat, i: nat, n: nat, rearm: real)
    requires IsRun(cycles, states) && 0 < m <= i < n < |cycles|
    requires Served(cycles, x, m - 1, n + 1, rearm) && forall j :: 0 <= j < m ==> cycles[j].env.rearm == rearm
    requires cycles[m - 1].KeyOf(x) in states[m]
    requires cycles[i].Stored(states[i], cycles[i].KeyOf(x)) && cycles[n].Stored(states[n], cycles[n].KeyOf(x))
    ensures RearmedIn(OwnEvents(cycles, x, m, n), i + 1 - m, n - m, rearm) || cycles[i].OwnEvent(x).CutOff?
  {
    hide Cycle.Serves, Cycle.OwnEvent, Follows, Cycle.KeyOf, Cycle.Stored, Recovered, RearmedIn, After, IsLife,
      EventsAlong;
    var from, chain := EveryRecordHasAHistory(cycles, states, m, cycles[m - 1].KeyOf(x), rearm);
    var h := EventsAlong(cycles, from, chain);
    var es := OwnEvents(cycles, x, m, n);
    assert |h| == |chain| by { OneEventEach(cycles, from, chain); }
    RekeyingNeverRefires(cycles, states, x, m, n, h, rearm);
    VerdictIsStored(cycles, states, x, m, i, n, h, rearm);
    assert (h + es)[|h| + i - m] == cycles[i].OwnEvent(x);
    if !cycles[i].OwnEvent(x).CutOff? {
      RecoveredSince(h + es, |h| + i - m, |h + es|, rearm);
      RecoveryOfTail(h, es, i + 1 - m, rearm);
    }
  }

  lemma OneEventEach(cycles: seq<Cycle>, from: nat, chain: seq<Key>)
    requires from + |chain| <= |cycles|
    ensures |EventsAlong(cycles, from, chain)| == |chain|
  {
  }

  lemma VerdictIsStored(cycles: seq<Cycle>, states: seq<State>, x: ThresholdKeys.Entry,
                        m: nat, i: nat, n: nat, h: seq<Event>, rearm: real)
    requires IsRun(cycles, states) && 0 < m <= i < n < |cycles|
    requires Served(cycles, x, m - 1, n + 1, rearm) && Holds(cycles[m - 1], states[m], x, After(h, |h|, rearm))
    requires cycles[i].Stored(states[i], cycles[i].KeyOf(x))
    ensures StoredAt(h + OwnEvents(cycles, x, m, n), |h| + i - m, rearm)
  {
    hide Cycle.Serves, Cycle.OwnEvent, Follows, Cycle.KeyOf, Cycle.Stored, After, Stores;
    var es := OwnEvents(cycles, x, m, n);
    SiblingsNeverDisturb(cycles, states, x, m, i, h, rearm);
    var front := h + OwnEvents(cycles, x, m, i);
    VerdictFromHeldState(cycles, states, i, x, After(front, |front|, rearm));
    assert h + es == front + es[i - m..] by {
      assert OwnEvents(cycles, x, m, i) == es[..i - m];
    }
    AfterPrefix(front, es[i - m..], |front|, rearm);
  }

  lemma RecoveredSince(h: seq<Event>, i: nat, n: nat, rearm: real)
    requires i < n <= |h| && Recovered(h, n, rearm) && StoredAt(h, i, rearm) && !h[i].CutOff?
    ensures RearmedIn(h, i + 1, n, rearm)
  {
    assert AcceptedAt(h, i, rearm);
  }

  /** A recovery inside the tail of a history is one of the tail. */
  lemma RecoveryOfTail(h: seq<Event>, es: seq<Event>, from: nat, rearm: real)
    requires RearmedIn(h + es, |h| + from, |h + es|, rearm)
    ensures RearmedIn(es, from, |es|, rearm)
  {
    var a: nat, b: nat :| |h| + from <= a && b < |h + es| && RearmRun(h + es, a, b, rearm);
    var c, d := a - |h|, b - |h|;
    WithinsOfTail(h, es, c, d + 1);
    forall k | c <= k <= d
      ensures !IsBreach(es[k])
    {
      assert es[k] == (h + es)[|h| + k];
    }
    assert RearmRun(es, c, d, rearm);
  }

  lemma {:induction false} WithinsOfTail(h: seq<Event>, es: seq<Event>, a: nat, b: nat)
    requires b <= |es|
    ensures Withins(h + es, |h| + a, |h| + b) == Withins(es, a, b)
  {
    if a < b { WithinsOfTail(h, es, a, b - 1); }
  }
}
