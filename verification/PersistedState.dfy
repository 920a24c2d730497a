/** Reading a persisted key state back (measure/thresholds/state.py: `KeyState.to_dict`,
    `KeyState.from_dict`).

    Restored state is not trusted: a field of the wrong type takes its default. The main
    theorem says exactly which damage can silence a breach. */
module PersistedState {
  import opened Wrappers
  import opened Hysteresis

  /** What a dictionary holds for a field: a value of the field's type, or nothing usable. */
  datatype Field<T> = Valid(value: T) | Corrupt

  datatype Record =
    | NotADict
    | Dict(last: Field<Option<Status>>, armed: Field<bool>, since: Field<Option<real>>, count: Field<nat>)

  function ToDict(ks: KeyState): Record {
    Dict(Valid(ks.lastEvaluable), Valid(ks.armed), Valid(ks.withinSince), Valid(ks.withinCount))
  }

  function FromDict(r: Record): KeyState {
    match r
    case NotADict => FRESH
    case Dict(last, armed, since, count) =>
      KeyState(
        if last.Valid? && last.value in {Some(Within), Some(Breach)} then last.value else None,
        if armed.Valid? then armed.value else true,
        if since.Valid? then since.value else None,
        if count.Valid? then count.value else 0)
  }

  predicate Kept<T(==)>(f: Field<T>, v: T) { f.Corrupt? || f.value == v }

  /** `r` is the record of `ks`, with any of its fields lost or the whole of it. */
  predicate Damaged(ks: KeyState, r: Record) {
    r.Dict? ==>
      && Kept(r.last, ks.lastEvaluable) && Kept(r.armed, ks.armed)
      && Kept(r.since, ks.withinSince) && Kept(r.count, ks.withinCount)
  }

  // ---------- running on from a state ----------

  predicate FiresAt(ks: KeyState, h: seq<Event>, n: nat, rearm: real)
    requires n < |h|
  {
    Fires(From(ks, h, n, rearm), h[n], rearm)
  }

  predicate QuietUpTo(ks: KeyState, h: seq<Event>, n: nat, rearm: real)
    requires n < |h|
  {
    forall m :: 0 <= m <= n ==> !FiresAt(ks, h, m, rearm)
  }

  ghost predicate SilencedBy(ks: KeyState, ks': KeyState, h: seq<Event>, n: nat, rearm: real) {
    n < |h| && FiresAt(ks, h, n, rearm) && QuietUpTo(ks', h, n, rearm)
  }

  /** Some events raise a breach from `ks`, and none up to then from `ks'`. */
  ghost predicate Silences(ks: KeyState, ks': KeyState, rearm: real) {
    exists h, n :: SilencedBy(ks, ks', h, n, rearm)
  }

  // ---------- reachable states ----------

  /** What every state a key can get into satisfies. */
  predicate Regular(ks: KeyState) {
    && ks.lastEvaluable in {None, Some(Within), Some(Breach)}
    && (ks.lastEvaluable == Some(Breach) ==> !ks.armed && ks.withinSince.None?)
    && (ks.withinSince.Some? ==> ks.lastEvaluable == Some(Within) && ks.withinCount > 0)
    && (ks.withinSince.None? ==> ks.withinCount == 0)
  }

  lemma {:induction false} ReachableIsRegular(h: seq<Event>, n: nat, rearm: real)
    requires n <= |h|
    ensures Regular(After(h, n, rearm))
  {
    if n > 0 { ReachableIsRegular(h, n - 1, rearm); }
  }

  /** Undamaged states are restored as they were. */
  lemma RestoredAsSaved(h: seq<Event>, n: nat, rearm: real)
    requires n <= |h|
    ensures FromDict(ToDict(After(h, n, rearm))) == After(h, n, rearm)
  {
    ReachableIsRegular(h, n, rearm);
  }

  // ---------- damage that does no harm ----------

  /** Whatever raises a breach from `ks` has raised one from `ks'` by then. */
  predicate AsReady(ks: KeyState, ks': KeyState) {
    if ks.armed then ks'.armed && ks'.lastEvaluable != Some(Breach)
    else
      || ks'.armed
      || (ks.withinSince.Some? ==>
            ks'.withinSince.Some? && ks'.withinSince.value <= ks.withinSince.value && ks.withinCount <= ks'.withinCount)
  }

  lemma EventKeepsAsReady(ks: KeyState, ks': KeyState, e: Event, rearm: real)
    requires AsReady(ks, ks') && !Fires(ks', e, rearm)
    ensures !Fires(ks, e, rearm) && AsReady(Commit(ks, e, rearm), Commit(ks', e, rearm))
  {
  }

  lemma {:induction false} QuietKeepsAsReady(ks: KeyState, ks': KeyState, h: seq<Event>, n: nat, rearm: real)
    requires n < |h| && AsReady(ks, ks') && QuietUpTo(ks', h, n, rearm)
    ensures AsReady(From(ks, h, n, rearm), From(ks', h, n, rearm)) && !FiresAt(ks, h, n, rearm)
  {
    hide AsReady;
    if n > 0 {
      QuietKeepsAsReady(ks, ks', h, n - 1, rearm);
      assert !FiresAt(ks', h, n - 1, rearm);
      EventKeepsAsReady(From(ks, h, n - 1, rearm), From(ks', h, n - 1, rearm), h[n - 1], rearm);
    }
    assert !FiresAt(ks', h, n, rearm);
    EventKeepsAsReady(From(ks, h, n, rearm), From(ks', h, n, rearm), h[n], rearm);
  }

  // ---------- damage that silences ----------

  /** A disarmed key loses the start or the length of the within run it is recording. */
  predicate LosesRun(ks: KeyState, r: Record) {
    r.Dict? && r.armed == Valid(false) && ks.withinSince.Some? && (r.since.Corrupt? || r.count.Corrupt?)
  }

  /** Evaluations that complete the run of `ks`, and a breach. */
  function Completing(ks: KeyState, rearm: real): seq<Event>
    requires ks.withinSince.Some?
  {
    var at := if rearm > 0.0 then ks.withinSince.value + rearm else ks.withinSince.value;
    var within, breach := Evaluated(Within, at, true), Evaluated(Breach, at, true);
    if ks.withinCount == 1 then [within, within, breach] else [within, breach]
  }

  lemma LostRunSilences(ks: KeyState, r: Record, rearm: real)
    requires Regular(ks) && Damaged(ks, r) && LosesRun(ks, r)
    ensures Silences(ks, FromDict(r), rearm)
  {
    var h, ks' := Completing(ks, rearm), FromDict(r);
    var n := |h| - 1;
    Unrolled(ks, h, rearm);
    Unrolled(ks', h, rearm);
    assert SilencedBy(ks, ks', h, n, rearm);
  }

  lemma Unrolled(ks: KeyState, h: seq<Event>, rearm: real)
    requires 2 <= |h| <= 3
    ensures From(ks, h, 1, rearm) == Commit(ks, h[0], rearm)
    ensures From(ks, h, 2, rearm) == Commit(Commit(ks, h[0], rearm), h[1], rearm)
  {
    assert From(ks, h, 0, rearm) == ks;
  }

  /** MAIN: damage to the record of any reachable state can silence a breach exactly if the
      disarmed flag survives while the run towards re-arming, already begun, does not. */
  lemma DamageSilencesIff(h: seq<Event>, n: nat, before: real, r: Record, rearm: real)
    requires n <= |h| && Damaged(After(h, n, before), r)
    ensures Silences(After(h, n, before), FromDict(r), rearm) <==> LosesRun(After(h, n, before), r)
  {
    var ks, ks' := After(h, n, before), FromDict(r);
    ReachableIsRegular(h, n, before);
    if LosesRun(ks, r) {
      LostRunSilences(ks, r, rearm);
    } else {
      assert AsReady(ks, ks');
      forall g: seq<Event>, m: nat
        ensures !SilencedBy(ks, ks', g, m, rearm)
      {
        if m < |g| && QuietUpTo(ks', g, m, rearm) { QuietKeepsAsReady(ks, ks', g, m, rearm); }
      }
    }
  }

  // ---------- and for how long ----------

  /** No damage silences for good: from any restored state whatever, one full re-arm run arms. */
  lemma DamageOnlyDelays(r: Record, h: seq<Event>, a: nat, b: nat, rearm: real)
    requires RearmRun(h, a, b, rearm) && ClockForward(h, a, b + 1)
    ensures From(FromDict(r), h, b + 1, rearm).armed && From(FromDict(r), h, b + 1, rearm).lastEvaluable == Some(Within)
  {
    RearmRunArms(FromDict(r), h, a, b, rearm);
  }
}
