/** The judgment-threshold phase over its state dictionary
    (measure/thresholds/phase.py: `_migrate`, `_evaluate`, `run_threshold_phase`, `_retire`).

    `Thresholds` owns the dictionary. Evaluations are concurrent tasks that read a key's
    state, talk to core, and write once at the end; a run may be cancelled between any two
    steps. The specification functions say what a whole phase makes of the dictionary. */
module ThresholdPhase {
  import opened Wrappers
  import opened Hysteresis
  import opened ThresholdKeys
  import opened Migration

  /** Sampling, evaluation and core's replies for one entry, fixed arbitrarily. */
  datatype Attempt = Attempt(status: Status, signature: string, assessmentOk: bool, verdictOk: bool)

  datatype Env = Env(now: real, rearm: real, heartbeat: real)

  function EventOf(a: Attempt, env: Env): Event { Evaluated(a.status, env.now, a.verdictOk) }

  function StateOf(s: State, k: Key): KeyState { if k in s then s[k].ks else FRESH }

  predicate Emits(prev: Option<Rec>, a: Attempt, fire: bool, env: Env) {
    || fire
    || prev.None? || prev.value.lastSignature != Some(a.signature)
    || prev.value.lastEmittedAt.None?
    || prev.value.lastEmittedAt.value > env.now
    || env.now - prev.value.lastEmittedAt.value >= env.heartbeat
  }

  /** The record an evaluation writes at its end; None when it writes nothing. */
  function WrittenBy(s: State, k: Key, e: Entry, a: Attempt, env: Env): Option<Rec> {
    var prev := if k in s then Some(s[k]) else None;
    match Advance(StateOf(s, k), a.status, env.now, env.rearm)
    case None => None
    case Some(t) =>
      if t.fire && !a.verdictOk then None
      else
        var recorded := Emits(prev, a, t.fire, env) && a.assessmentOk;
        Some(Rec(t.state, e.service, Some(IdentOf(e)),
                 if recorded then Some(a.signature) else if prev.Some? then prev.value.lastSignature else None,
                 if recorded then Some(env.now) else if prev.Some? then prev.value.lastEmittedAt else None))
  }

  // ---------- schedules ----------

  /** `Begin`: the task of `key` has its sample and reads the key's state. `Finish`: core
      has answered and the task writes. */
  datatype Step = Begin(key: Key, attempt: Attempt) | Finish(key: Key)

  function Begun(steps: seq<Step>): map<Key, Attempt> {
    if |steps| == 0 then map[]
    else
      var rest, last := Begun(steps[..|steps| - 1]), steps[|steps| - 1];
      if last.Begin? then rest[last.key := last.attempt] else rest
  }

  function Finished(steps: seq<Step>): map<Key, Attempt> {
    if |steps| == 0 then map[]
    else
      var rest, last := Finished(steps[..|steps| - 1]), steps[|steps| - 1];
      if last.Finish? && last.key in Begun(steps[..|steps| - 1])
      then rest[last.key := Begun(steps[..|steps| - 1])[last.key]] else rest
  }

  /** What a run, completed or cut off, does with a key. */
  function KeyEvent(steps: seq<Step>, env: Env, k: Key): Event {
    if k in Finished(steps) then EventOf(Finished(steps)[k], env)
    else if k in Begun(steps) then CutOff(Begun(steps)[k].status, env.now, Begun(steps)[k].verdictOk)
    else Skipped
  }

  /** One task per live key; any interleaving, cut off anywhere. */
  ghost predicate Schedule(live: Live, steps: seq<Step>) {
    |steps| == 0 ||
    var front, last := steps[..|steps| - 1], steps[|steps| - 1];
    Schedule(live, front) &&
    match last
    case Begin(k, _) => k in live && k !in Begun(front)
    case Finish(k) => k in Begun(front) && k !in Finished(front)
  }

  lemma {:induction false} ScheduledKeys(live: Live, steps: seq<Step>)
    requires Schedule(live, steps)
    ensures Begun(steps).Keys <= live.Keys && Finished(steps).Keys <= Begun(steps).Keys
    ensures forall k :: k in Finished(steps) ==> Finished(steps)[k] == Begun(steps)[k]
  {
    if |steps| > 0 { ScheduledKeys(live, steps[..|steps| - 1]); }
  }

  // ---------- what the phase makes of the dictionary ----------

  function Get(s: State, k: Key): Option<Rec> { if k in s then Some(s[k]) else None }

  /** The record of `k` after exactly the evaluations `done` have written. */
  function RecordAfter(s: State, live: Live, done: map<Key, Attempt>, env: Env, k: Key): Option<Rec>
    requires done.Keys <= live.Keys
  {
    if k in done && WrittenBy(s, k, live[k], done[k], env).Some?
    then WrittenBy(s, k, live[k], done[k], env) else Get(s, k)
  }

  function Applied(s: State, live: Live, done: map<Key, Attempt>, env: Env): State
    requires done.Keys <= live.Keys
  {
    map k | k in s.Keys + done.Keys && RecordAfter(s, live, done, env, k).Some? ::
      RecordAfter(s, live, done, env, k).value
  }

  /** Keys whose breach verdict core accepted. */
  function NewBreaches(s: State, done: map<Key, Attempt>, env: Env): set<Key> {
    set k | k in done && Accepts(StateOf(s, k), EventOf(done[k], env), env.rearm)
  }

  function Retired(s: State, live: Live, present: set<string>): State {
    map k | k in s && (s[k].service in present ==> k in live) :: s[k]
  }

  ghost function PhaseState(s: State, live: Live, present: set<string>, done: map<Key, Attempt>,
                            completed: bool, env: Env): State
    requires done.Keys <= live.Keys
  {
    var s' := Applied(MigratedState(s, live), live, done, env);
    if completed then Retired(s', live, present) else s'
  }

  class Thresholds {
    var state: State

    constructor ()
      ensures state == map[]
    {
      state := map[];
    }

    method Migrate(live: Live) returns (renamed: map<Key, Key>)
      requires ProperKeys(live)
      modifies this
      ensures state == MigratedState(old(state), live)
      ensures IsRenaming(old(state), live, renamed)
    {
      ghost var s := state;
      state := Refreshed(state, live);
      renamed := PairAll(s, state, live);
      RenamingIsClean(s, live, renamed);
      ghost var back := MoveAll(live, renamed);
      MovedIsMigrated(s, live, renamed, back, state);
    }

    method MoveAll(live: Live, renamed: map<Key, Key>) returns (ghost back: map<Key, Key>)
      requires CleanRenaming(state.Keys, live, renamed)
      modifies this
      ensures IsInverse(renamed, {}, back) && Moved(old(state), live, renamed, {}, back, state)
    {
      ghost var before := state;
      var olds := renamed.Keys;
      back := map[];
      while olds != {}
        invariant olds <= renamed.Keys && IsInverse(renamed, olds, back)
        invariant forall n :: n in back ==> n in live
        invariant Moved(before, live, renamed, olds, back, state)
      {
        var o :| o in olds;
        assert Get(state, o) == Expected(before, live, renamed, olds, back, o);
        MoveOne(before, live, renamed, olds, back, state, o);
        OneMoreBack(state.Keys, renamed, olds, back, o);
        state := (state - {o})[renamed[o] := state[o].(ident := Some(IdentOf(live[renamed[o]])))];
        back := back[renamed[o] := o];
        olds := olds - {o};
      }
    }

    /** Writes of the tasks of one run, in any interleaving. */
    method RunTasks(live: Live, steps: seq<Step>, env: Env) returns (breaches: set<Key>)
      requires Schedule(live, steps)
      modifies this
      ensures Finished(steps).Keys <= live.Keys
      ensures state == Applied(old(state), live, Finished(steps), env)
      ensures breaches == NewBreaches(old(state), Finished(steps), env)
    {
      hide WrittenBy, Accepts, Applied;
      ghost var s := state;
      breaches := {};
      var pending: map<Key, (Option<Rec>, bool)> := map[];
      for i := 0 to |steps|
        invariant RunInvariant(s, live, steps[..i], env, pending, state, breaches)
      {
        SchedulePrefix(live, steps, i + 1);
        assert steps[..i + 1] == steps[..i] + [steps[i]];
        match steps[i] {
          case Begin(k, a) =>
            BeginKeepsInvariant(s, live, steps[..i], env, k, a, pending, state, breaches);
            pending := pending[k := (WrittenBy(state, k, live[k], a, env),
                                     Accepts(StateOf(state, k), EventOf(a, env), env.rearm))];
          case Finish(k) =>
            FinishKeepsInvariant(s, live, steps[..i], env, k, pending, state, breaches);
            if pending[k].0.Some? {
              state := state[k := pending[k].0.value];
            }
            if pending[k].1 {
              breaches := breaches + {k};
            }
        }
      }
      assert steps[..|steps|] == steps;
      AppliedPointwise(s, live, Finished(steps), env, state);
    }

    method Retire(live: Live, present: set<string>)
      modifies this
      ensures state == Retired(old(state), live, present)
    {
      ghost var was := state;
      var gone := set k | k in state && state[k].service in present && k !in live;
      while gone != {}
        invariant gone <= state.Keys && state.Keys <= was.Keys
        invariant forall k :: k in gone ==> was[k].service in present && k !in live
        invariant forall k :: k in was ==> (k in state <==> k in gone || k in Retired(was, live, present))
        invariant forall k :: k in state ==> state[k] == was[k]
      {
        var k :| k in gone;
        state := state - {k};
        gone := gone - {k};
      }
    }

    /** `run_threshold_phase`; with no steps and completed, `retire_thresholds`. */
    method RunPhase(ms: seq<Manifest>, steps: seq<Step>, completed: bool, env: Env)
      returns (renamed: map<Key, Key>, breaches: set<Key>)
      requires Schedule(EntriesOf(AllServed(ms)), steps)
      modifies this
      ensures var live := EntriesOf(AllServed(ms));
              && ProperKeys(live) && Finished(steps).Keys <= live.Keys
              && IsRenaming(old(state), live, renamed)
              && state == PhaseState(old(state), live, PresentServices(ms), Finished(steps), completed, env)
              && breaches == NewBreaches(MigratedState(old(state), live), Finished(steps), env)
    {
      var present, live := Entries(ms);
      ServedKeysAreProper(ms);
      renamed := Migrate(live);
      breaches := RunTasks(live, steps, env);
      if completed {
        PresentIs(ms, present);
        Retire(live, present);
      }
    }
  }

  /** The keys of served entries are proper. */
  lemma ServedKeysAreProper(ms: seq<Manifest>)
    ensures ProperKeys(EntriesOf(AllServed(ms)))
  {
    EntriesAreKeyed(AllServed(ms));
    KeyedKeysAreProper(AllServed(ms), EntriesOf(AllServed(ms)));
  }

  /** What retirement takes away: the records of services listed in full, by all their
      manifests, whose key no served entry has. The others keep their records as they are. */
  lemma RetiredIff(ms: seq<Manifest>, s: State, k: Key)
    requires k in s
    ensures var s', served := Retired(s, EntriesOf(AllServed(ms)), PresentServices(ms)), AllServed(ms);
            if FullyPresent(ms, s[k].service) && forall x :: x in served ==> KeyFor(served, x) != k then k !in s'
            else k in s' && s'[k] == s[k]
  {
    EntriesAreKeyed(AllServed(ms));
    if FullyPresent(ms, s[k].service) {
      var i :| 0 <= i < |ms| && Lists(ms[i], s[k].service);
      assert s[k].service in PresentServices(ms);
    }
  }

  /** The services of `ms` that are safe to retire against. */
  ghost function PresentServices(ms: seq<Manifest>): set<string> {
    set i | 0 <= i < |ms| && ms[i].Named() && FullyPresent(ms, ms[i].name.value) :: ms[i].name.value
  }

  lemma PresentIs(ms: seq<Manifest>, present: set<string>)
    requires forall s :: s in present <==> FullyPresent(ms, s)
    ensures present == PresentServices(ms)
  {
    forall s | s in present
      ensures s in PresentServices(ms)
    {
      var i :| 0 <= i < |ms| && Lists(ms[i], s);
    }
  }

  // ---------- migration, step by step ----------

  /** Dead keys with state go to live keys without, one to one. */
  ghost predicate CleanRenaming(keys: set<Key>, live: Live, renamed: map<Key, Key>) {
    && (forall o :: o in renamed ==> o in keys && o !in live && renamed[o] in live && renamed[o] !in keys)
    && (forall o, p :: o in renamed && p in renamed && renamed[o] == renamed[p] ==> o == p)
  }

  /** `back` inverts the part of `renamed` outside `left`. */
  ghost predicate IsInverse(renamed: map<Key, Key>, left: set<Key>, back: map<Key, Key>) {
    && (forall o :: o in renamed && o !in left ==> renamed[o] in back && back[renamed[o]] == o)
    && (forall n :: n in back ==> back[n] in renamed && back[n] !in left && renamed[back[n]] == n)
  }

  /** The record at `k` when all records of `renamed` have moved but those of `left`. */
  ghost function Expected(before: State, live: Live, renamed: map<Key, Key>, left: set<Key>,
                          back: map<Key, Key>, k: Key): Option<Rec>
  {
    if k in back then
      if back[k] in before && k in live then Some(before[back[k]].(ident := Some(IdentOf(live[k])))) else None
    else if k in renamed && k !in left then None
    else Get(before, k)
  }

  ghost predicate Moved(before: State, live: Live, renamed: map<Key, Key>, left: set<Key>,
                        back: map<Key, Key>, s: State)
  {
    forall k :: Get(s, k) == Expected(before, live, renamed, left, back, k)
  }

  lemma MoveOne(before: State, live: Live, renamed: map<Key, Key>, left: set<Key>, back: map<Key, Key>,
                s: State, o: Key)
    requires Moved(before, live, renamed, left, back, s) && o in left && o in renamed
    requires o in before && o !in back && renamed[o] in live && renamed[o] != o
    ensures o in s
    ensures Moved(before, live, renamed, left - {o}, back[renamed[o] := o],
                  (s - {o})[renamed[o] := s[o].(ident := Some(IdentOf(live[renamed[o]])))])
  {
    assert Get(s, o) == Expected(before, live, renamed, left, back, o);
    var n := renamed[o];
    var s' := (s - {o})[n := s[o].(ident := Some(IdentOf(live[n])))];
    forall k
      ensures Get(s', k) == Expected(before, live, renamed, left - {o}, back[n := o], k)
    {
      assert Get(s, k) == Expected(before, live, renamed, left, back, k);
    }
  }

  lemma OneMoreBack(keys: set<Key>, renamed: map<Key, Key>, left: set<Key>, back: map<Key, Key>, o: Key)
    requires IsInverse(renamed, left, back) && o in left && o in renamed
    requires forall p, q :: p in renamed && q in renamed && renamed[p] == renamed[q] ==> p == q
    ensures IsInverse(renamed, left - {o}, back[renamed[o] := o])
  {
  }

  method PairAll(ghost s: State, before: State, live: Live) returns (renamed: map<Key, Key>)
    requires ProperKeys(live) && before == Refreshed(s, live)
    ensures IsRenaming(s, live, renamed)
  {
    renamed := map[];
    var todo := set k | k in live && k !in before :: live[k].ThresholdKey();
    ghost var all := todo;
    while todo != {}
      invariant todo <= all
      invariant forall o, n :: (o in renamed && renamed[o] == n) <==>
                  Pairs(before, live, o, n) && live[n].ThresholdKey() in all - todo
    {
      var b :| b in todo;
      var pairs := PairGroup(before, live, b);
      AddGroup(before, live, all - todo, b, renamed, pairs);
      renamed := renamed + pairs;
      todo := todo - {b};
      assert all - todo == (all - (todo + {b})) + {b};
    }
    forall o, n
      ensures Pairs(s, live, o, n) <==> (o in renamed && renamed[o] == n)
    {
      PairsOfRefreshed(s, live, o, n);
      if Pairs(before, live, o, n) { PairFacts(before, live, o, n); }
    }
  }

  lemma AddGroup(s: State, live: Live, done: set<Base>, b: Base, renamed: map<Key, Key>, pairs: map<Key, Key>)
    requires ProperKeys(live) && b !in done
    requires forall o, n :: (o in renamed && renamed[o] == n) <==>
               Pairs(s, live, o, n) && live[n].ThresholdKey() in done
    requires GroupPairs(s, live, b, pairs)
    ensures var sum := renamed + pairs;
            forall o, n :: (o in sum && sum[o] == n) <==> Pairs(s, live, o, n) && live[n].ThresholdKey() in done + {b}
  {
    forall o | o in renamed && o in pairs
      ensures false
    {
      assert Pairs(s, live, o, renamed[o]) && Pairs(s, live, o, pairs[o]);
      PairingIsInjective(s, live, o, renamed[o], o, pairs[o]);
    }
  }

  lemma PairsOfRefreshed(s: State, live: Live, o: Key, n: Key)
    ensures Pairs(Refreshed(s, live), live, o, n) <==> Pairs(s, live, o, n)
  {
    var r := Refreshed(s, live);
    assert r.Keys == s.Keys;
    if n in live {
      var b := live[n].ThresholdKey();
      assert Olds(r, live, b) == Olds(s, live, b);
      assert News(r, live, b) == News(s, live, b);
      assert SameDigest(r, live, live[n]) == SameDigest(s, live, live[n]);
      forall p, m | m in News(s, live, b)
        ensures ByDigest(r, live, p, m) <==> ByDigest(s, live, p, m)
      {
        assert SameDigest(r, live, live[m]) == SameDigest(s, live, live[m]);
      }
      assert RestOld(r, live, b) == RestOld(s, live, b);
      assert RestNew(r, live, b) == RestNew(s, live, b);
    }
  }

  lemma RenamingIsClean(s: State, live: Live, renamed: map<Key, Key>)
    requires ProperKeys(live) && IsRenaming(s, live, renamed)
    ensures CleanRenaming(Refreshed(s, live).Keys, live, renamed)
  {
    assert Refreshed(s, live).Keys == s.Keys;
    forall o | o in renamed
      ensures o in s && o !in live && renamed[o] in live && renamed[o] !in s
    {
      assert Pairs(s, live, o, renamed[o]);
      PairFacts(s, live, o, renamed[o]);
    }
    forall o, p | o in renamed && p in renamed && renamed[o] == renamed[p]
      ensures o == p
    {
      assert Pairs(s, live, o, renamed[o]) && Pairs(s, live, p, renamed[p]);
      PairingIsInjective(s, live, o, renamed[o], p, renamed[p]);
    }
  }

  lemma MovedIsMigrated(s: State, live: Live, renamed: map<Key, Key>, back: map<Key, Key>, s': State)
    requires ProperKeys(live) && IsRenaming(s, live, renamed) && IsInverse(renamed, {}, back)
    requires Moved(Refreshed(s, live), live, renamed, {}, back, s')
    ensures s' == MigratedState(s, live)
  {
    forall k
      ensures k in s' <==> k in s.Keys + live.Keys && HasRecord(s, live, k)
      ensures k in s' ==> s'[k] == RecordOf(s, live, k)
    {
      assert Get(s', k) == Expected(Refreshed(s, live), live, renamed, {}, back, k);
      MovedRecord(s, live, renamed, back, k);
    }
  }

  lemma MovedRecord(s: State, live: Live, renamed: map<Key, Key>, back: map<Key, Key>, k: Key)
    requires ProperKeys(live) && IsRenaming(s, live, renamed) && IsInverse(renamed, {}, back)
    ensures Expected(Refreshed(s, live), live, renamed, {}, back, k) ==
            if k in s.Keys + live.Keys && HasRecord(s, live, k) then Some(RecordOf(s, live, k)) else None
  {
    if k in back {
      assert Pairs(s, live, back[k], k);
      PairFacts(s, live, back[k], k);
      UniqueSource(s, live, back[k], k);
    } else if k in renamed {
      assert Pairs(s, live, k, renamed[k]);
      PairFacts(s, live, k, renamed[k]);
    } else {
      forall o | o in renamed
        ensures renamed[o] != k
      {
      }
      NoSource(s, live, renamed, k);
    }
  }

  lemma UniqueSource(s: State, live: Live, o: Key, k: Key)
    requires ProperKeys(live) && Pairs(s, live, o, k)
    ensures o in s && o !in live && HasRecord(s, live, k)
    ensures RecordOf(s, live, k) == s[o].(ident := Some(IdentOf(live[k])))
  {
    PairFacts(s, live, o, k);
    forall p | Pairs(s, live, p, k)
      ensures p == o
    {
      PairingIsInjective(s, live, o, k, p, k);
    }
  }

  lemma NoSource(s: State, live: Live, renamed: map<Key, Key>, k: Key)
    requires IsRenaming(s, live, renamed) && k !in renamed && forall o :: o in renamed ==> renamed[o] != k
    ensures k in s <==> HasRecord(s, live, k)
  {
    forall o
      ensures !Pairs(s, live, o, k) && !Pairs(s, live, k, o)
    {
    }
  }

  // ---------- interleaving ----------

  /** `state` is `s` with exactly the writes of `done`. */
  ghost predicate Shows(s: State, live: Live, done: map<Key, Attempt>, env: Env, state: State)
    requires done.Keys <= live.Keys
  {
    forall k :: Get(state, k) == RecordAfter(s, live, done, env, k)
  }

  /** Between steps: every task that has begun holds the write computed from the state the
      run started from, and the dictionary shows exactly the finished tasks. */
  ghost predicate RunInvariant(s: State, live: Live, steps: seq<Step>, env: Env,
                               pending: map<Key, (Option<Rec>, bool)>, state: State, breaches: set<Key>)
  {
    && Schedule(live, steps)
    && Finished(steps).Keys <= Begun(steps).Keys <= live.Keys
    && pending.Keys == Begun(steps).Keys
    && (forall k :: k in pending ==>
          && pending[k].0 == WrittenBy(s, k, live[k], Begun(steps)[k], env)
          && pending[k].1 == Accepts(StateOf(s, k), EventOf(Begun(steps)[k], env), env.rearm))
    && Shows(s, live, Finished(steps), env, state)
    && (forall k :: k in breaches <==> k in NewBreaches(s, Finished(steps), env))
  }

  lemma BeginKeepsInvariant(s: State, live: Live, front: seq<Step>, env: Env, k: Key, a: Attempt,
                            pending: map<Key, (Option<Rec>, bool)>, state: State, breaches: set<Key>)
    requires RunInvariant(s, live, front, env, pending, state, breaches)
    requires Schedule(live, front + [Begin(k, a)])
    ensures k in live
    ensures RunInvariant(s, live, front + [Begin(k, a)], env,
                         pending[k := (WrittenBy(state, k, live[k], a, env),
                                       Accepts(StateOf(state, k), EventOf(a, env), env.rearm))], state, breaches)
  {
    hide WrittenBy, Accepts, NewBreaches, StateOf, Shows, EventOf, Schedule, Begun, Finished;
    OneMoreBegun(live, front, k, a);
    ScheduledKeys(live, front);
    assert Get(state, k) == Get(s, k) by {
      UntouchedSoFar(s, live, Finished(front), env, k);
      ShownAt(s, live, Finished(front), env, state, k);
    }
    SameRecordSameWrite(s, state, k, live[k], a, env);
  }

  lemma OneMoreBegun(live: Live, front: seq<Step>, k: Key, a: Attempt)
    requires Schedule(live, front + [Begin(k, a)])
    ensures var steps := front + [Begin(k, a)];
            && Schedule(live, front) && k in live && k !in Begun(front) && Begun(steps) == Begun(front)[k := a]
            && Finished(steps) == Finished(front)
  {
    assert (front + [Begin(k, a)])[..|front|] == front;
  }

  lemma ShownAt(s: State, live: Live, done: map<Key, Attempt>, env: Env, state: State, k: Key)
    requires done.Keys <= live.Keys && Shows(s, live, done, env, state)
    ensures Get(state, k) == RecordAfter(s, live, done, env, k)
  {
  }

  lemma UntouchedSoFar(s: State, live: Live, done: map<Key, Attempt>, env: Env, k: Key)
    requires done.Keys <= live.Keys && k !in done
    ensures RecordAfter(s, live, done, env, k) == Get(s, k)
  {
  }

  /** No other task writes a key, so a task that has not finished computes the same write
      from the current state as from the state the run started from. */
  lemma SameRecordSameWrite(s: State, s': State, k: Key, e: Entry, a: Attempt, env: Env)
    requires Get(s, k) == Get(s', k)
    ensures StateOf(s', k) == StateOf(s, k) && WrittenBy(s', k, e, a, env) == WrittenBy(s, k, e, a, env)
  {
  }

  lemma FinishKeepsInvariant(s: State, live: Live, front: seq<Step>, env: Env, k: Key,
                             pending: map<Key, (Option<Rec>, bool)>, state: State, breaches: set<Key>)
    requires RunInvariant(s, live, front, env, pending, state, breaches)
    requires Schedule(live, front + [Finish(k)])
    ensures k in pending
    ensures RunInvariant(s, live, front + [Finish(k)], env, pending,
                         if pending[k].0.Some? then state[k := pending[k].0.value] else state,
                         if pending[k].1 then breaches + {k} else breaches)
  {
    hide WrittenBy, Accepts, Applied;
    var steps := front + [Finish(k)];
    assert steps[..|front|] == front;
    ScheduledKeys(live, front);
    var a := Begun(front)[k];
    assert Finished(steps) == Finished(front)[k := a];
    assert Begun(steps) == Begun(front);
    OneMoreFinished(s, live, Finished(front), env, k, a, state, pending[k].0);
    var breaches' := if pending[k].1 then breaches + {k} else breaches;
    forall l
      ensures l in breaches' <==> l in NewBreaches(s, Finished(steps), env)
    {
      assert l in breaches <==> l in NewBreaches(s, Finished(front), env);
    }
  }

  lemma OneMoreFinished(s: State, live: Live, done: map<Key, Attempt>, env: Env, k: Key, a: Attempt,
                        state: State, w: Option<Rec>)
    requires done.Keys <= live.Keys && k in live && k !in done && w == WrittenBy(s, k, live[k], a, env)
    requires Shows(s, live, done, env, state)
    ensures Shows(s, live, done[k := a], env, if w.Some? then state[k := w.value] else state)
  {
    var state' := if w.Some? then state[k := w.value] else state;
    forall l
      ensures Get(state', l) == RecordAfter(s, live, done[k := a], env, l)
    {
      assert Get(state, l) == RecordAfter(s, live, done, env, l);
    }
  }

  lemma AppliedPointwise(s: State, live: Live, done: map<Key, Attempt>, env: Env, s': State)
    requires done.Keys <= live.Keys && Shows(s, live, done, env, s')
    ensures s' == Applied(s, live, done, env)
  {
    forall k
      ensures k in s' <==> k in s.Keys + done.Keys && RecordAfter(s, live, done, env, k).Some?
      ensures k in s' ==> s'[k] == RecordAfter(s, live, done, env, k).value
    {
      assert Get(s', k) == RecordAfter(s, live, done, env, k);
    }
  }

  lemma {:induction false} SchedulePrefix(live: Live, steps: seq<Step>, n: nat)
    requires Schedule(live, steps) && n <= |steps|
    ensures Schedule(live, steps[..n])
    decreases |steps|
  {
    if n == |steps| {
      assert steps[..n] == steps;
    } else {
      assert steps[..|steps| - 1][..n] == steps[..n];
      SchedulePrefix(live, steps[..|steps| - 1], n);
    }
  }

  /** A key's hysteresis state moves by exactly one committed event, which leaves it as it was
      if its task did not finish. */
  lemma AppliedIsOneEvent(s: State, live: Live, steps: seq<Step>, env: Env, k: Key)
    requires Finished(steps).Keys <= live.Keys
    ensures StateOf(Applied(s, live, Finished(steps), env), k) ==
            Commit(StateOf(s, k), KeyEvent(steps, env, k), env.rearm)
  {
    hide Finished, Begun;
  }

  /** A verdict core has from a run is among the breaches the run reports iff its answer
      arrived, and its key is then disarmed; otherwise the key is as it was, and whatever
      breach comes next is raised again. */
  lemma StoredVerdictIsReportedOrRepeated(s: State, live: Live, steps: seq<Step>, env: Env, k: Key, next: Event)
    requires Schedule(live, steps) && Stores(StateOf(s, k), KeyEvent(steps, env, k), env.rearm) && IsBreach(next)
    ensures k in NewBreaches(s, Finished(steps), env) <==> k in Finished(steps)
    ensures Finished(steps).Keys <= live.Keys
    ensures var after := StateOf(Applied(s, live, Finished(steps), env), k);
            if k in Finished(steps) then !after.armed && !Fires(after, next, env.rearm)
            else after == StateOf(s, k) && Fires(after, next, env.rearm)
  {
    ScheduledKeys(live, steps);
    AppliedIsOneEvent(s, live, steps, env, k);
  }

  /** What a record says was last reported: the signature and when. */
  datatype Report = Report(signature: Option<string>, at: Option<real>)

  function ReportOf(s: State, k: Key): Report {
    if k in s then Report(s[k].lastSignature, s[k].lastEmittedAt) else Report(None, None)
  }

  /** Nothing to report: no verdict is raised, the outcome is the one last reported, and that
      was less than a heartbeat ago. */
  predicate NothingNew(s: State, k: Key, a: Attempt, env: Env) {
    && !Fires(StateOf(s, k), EventOf(a, env), env.rearm)
    && ReportOf(s, k).signature == Some(a.signature)
    && ReportOf(s, k).at.Some? && ReportOf(s, k).at.value <= env.now < ReportOf(s, k).at.value + env.heartbeat
  }

  /** The evaluation raised, or core refused its verdict: it writes nothing. */
  predicate WritesNothing(s: State, k: Key, a: Attempt, env: Env) {
    || a.status == Unrecognised
    || (Fires(StateOf(s, k), EventOf(a, env), env.rearm) && !a.verdictOk)
  }

  /** MAIN: what a run leaves of a key beside its hysteresis state. A finished evaluation leaves
      a record of its entry that notes its outcome as reported iff there was something to
      report and core accepted the assessment; otherwise the last report stays as it was. */
  lemma RunLeavesReport(s: State, live: Live, steps: seq<Step>, env: Env, k: Key)
    requires Schedule(live, steps)
    ensures Finished(steps).Keys <= live.Keys
    ensures var s' := Applied(s, live, Finished(steps), env);
            if k !in Finished(steps) || WritesNothing(s, k, Finished(steps)[k], env) then Get(s', k) == Get(s, k)
            else
              var a := Finished(steps)[k];
              && k in s' && s'[k].service == live[k].service && s'[k].ident == Some(IdentOf(live[k]))
              && ReportOf(s', k) ==
                   if a.assessmentOk && !NothingNew(s, k, a, env) then Report(Some(a.signature), Some(env.now))
                   else ReportOf(s, k)
  {
    ScheduledKeys(live, steps);
    hide Finished, Begun;
  }

  /** While core accepts assessments, what was last reported of a key is its last outcome,
      reported less than a heartbeat ago, and a firing breach always reports. */
  lemma HeartbeatIsKept(s: State, k: Key, e: Entry, a: Attempt, env: Env)
    requires env.heartbeat > 0.0 && a.assessmentOk && WrittenBy(s, k, e, a, env).Some?
    ensures var r := WrittenBy(s, k, e, a, env).value;
            && r.lastSignature == Some(a.signature) && r.lastEmittedAt.Some?
            && env.now - env.heartbeat < r.lastEmittedAt.value <= env.now
            && (Accepts(StateOf(s, k), EventOf(a, env), env.rearm) ==> r.lastEmittedAt == Some(env.now))
  {
  }

  /** A breach verdict goes unrecorded in the state exactly if core did not accept it; an
      accepted one leaves its key disarmed. */
  lemma AcceptedBreachIsDisarmed(s: State, live: Live, done: map<Key, Attempt>, env: Env, k: Key)
    requires done.Keys <= live.Keys && k in NewBreaches(s, done, env)
    ensures k in Applied(s, live, done, env) && !Applied(s, live, done, env)[k].ks.armed
    ensures StateOf(s, k).armed
  {
  }
}
