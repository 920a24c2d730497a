/** Breach hysteresis of one threshold key (measure/thresholds/state.py).

    `Advance` is the transition function; `Commit` is what `_evaluate` leaves in the
    state dictionary once core has answered. A key's life is a sequence of events,
    and the theorems say, in terms of those events alone, when a key is armed and
    therefore when a breach verdict is raised. */
module Hysteresis {
  import opened Wrappers

  const REARM_INTERVALS: nat := 3

  /** Combined status of one evaluation. `Unrecognised` makes the source raise. */
  datatype Status = Within | Breach | NotEvaluable | Unrecognised

  datatype KeyState = KeyState(
    lastEvaluable: Option<Status>,  // None, Some(Within) or Some(Breach)
    armed: bool,
    withinSince: Option<real>,
    withinCount: nat)

  const FRESH := KeyState(None, true, None, 0)

  datatype Transition = Transition(state: KeyState, fire: bool)

  /** None models the ValueError for an unknown status. */
  function Advance(state: KeyState, status: Status, now: real, rearm: real): Option<Transition> {
    match status
    case Unrecognised => None
    case NotEvaluable => Some(Transition(state, false))
    case Within =>
      var restart := state.withinSince.None? || state.withinSince.value > now;
      var since := if restart then now else state.withinSince.value;
      var count := if restart then 1 else state.withinCount + 1;
      var armed := state.armed || (now - since >= rearm && count >= REARM_INTERVALS);
      Some(Transition(KeyState(Some(Within), armed, Some(since), count), false))
    case Breach =>
      var fire := state.armed && state.lastEvaluable != Some(Breach);
      Some(Transition(KeyState(Some(Breach), state.armed && !fire, None, 0), fire))
  }

  /** What one measure cycle does with a key. `accepted` is core's answer to the breach
      verdict, read only if one is raised. `CutOff`: cancelled, or failed, before its end;
      `stored` says whether core has the verdict if one was sent by then. `Skipped`: not
      evaluated. */
  datatype Event =
    | Skipped
    | Evaluated(status: Status, now: real, accepted: bool)
    | CutOff(status: Status, now: real, stored: bool)

  /** The event raises a breach verdict. */
  predicate Fires(ks: KeyState, e: Event, rearm: real) {
    !e.Skipped? && var t := Advance(ks, e.status, e.now, rearm); t.Some? && t.value.fire
  }

  /** Core's acceptance of the verdict has arrived. */
  predicate Accepts(ks: KeyState, e: Event, rearm: real) {
    e.Evaluated? && Fires(ks, e, rearm) && e.accepted
  }

  /** Core has the verdict, whether or not its answer arrived. */
  predicate Stores(ks: KeyState, e: Event, rearm: real) {
    Fires(ks, e, rearm) && if e.Evaluated? then e.accepted else e.stored
  }

  /** State changes only once everything the evaluation owes is delivered. */
  function Commit(ks: KeyState, e: Event, rearm: real): KeyState {
    if !e.Evaluated? then ks
    else
      match Advance(ks, e.status, e.now, rearm)
      case None => ks
      case Some(t) => if t.fire && !e.accepted then ks else t.state
  }

  /** State of a key after the first `n` events from `ks`. */
  function From(ks: KeyState, h: seq<Event>, n: nat, rearm: real): KeyState
    requires n <= |h|
  {
    if n == 0 then ks else Commit(From(ks, h, n - 1, rearm), h[n - 1], rearm)
  }

  /** State of a key after the first `n` events of its life. */
  function After(h: seq<Event>, n: nat, rearm: real): KeyState
    requires n <= |h|
  {
    From(FRESH, h, n, rearm)
  }

  predicate AcceptedAt(h: seq<Event>, i: nat, rearm: real)
    requires i < |h|
  {
    Accepts(After(h, i, rearm), h[i], rearm)
  }

  predicate StoredAt(h: seq<Event>, i: nat, rearm: real)
    requires i < |h|
  {
    Stores(After(h, i, rearm), h[i], rearm)
  }

  predicate IsWithin(e: Event) { e.Evaluated? && e.status == Within }

  predicate IsBreach(e: Event) { e.Evaluated? && e.status == Breach }

  /** Number of within evaluations among events a .. b-1. */
  function Withins(h: seq<Event>, a: nat, b: nat): nat
    requires b <= |h|
  {
    if b <= a then 0 else Withins(h, a, b - 1) + (if IsWithin(h[b - 1]) then 1 else 0)
  }

  /** Events a .. b form a breach-free run that is long enough, in count and in time. */
  ghost predicate RearmRun(h: seq<Event>, a: nat, b: nat, rearm: real) {
    && a <= b < |h|
    && IsWithin(h[a]) && IsWithin(h[b])
    && (forall k :: a <= k <= b ==> !IsBreach(h[k]))
    && Withins(h, a, b + 1) >= REARM_INTERVALS
    && h[b].now - h[a].now >= rearm
  }

  ghost predicate RearmedIn(h: seq<Event>, from: nat, to: nat, rearm: real) {
    exists a: nat, b: nat :: from <= a && b < to && RearmRun(h, a, b, rearm)
  }

  /** Reference definition of "armed": every accepted breach has since been answered
      by a rearm run. */
  ghost predicate Recovered(h: seq<Event>, n: nat, rearm: real)
    requires n <= |h|
  {
    forall i: nat :: i < n && AcceptedAt(h, i, rearm) ==> RearmedIn(h, i + 1, n, rearm)
  }

  /** The clock does not go back between events a .. b-1. */
  ghost predicate ClockForward(h: seq<Event>, a: nat, b: nat)
    requires b <= |h|
  {
    forall i, j :: a <= i < j < b && h[i].Evaluated? && h[j].Evaluated? ==> h[i].now <= h[j].now
  }

  /** From a fresh start an armed key never remembers a breach, so every breach on an
      armed key fires. */
  lemma {:induction false} ArmedNeverAfterBreach(h: seq<Event>, n: nat, rearm: real)
    requires n <= |h|
    ensures After(h, n, rearm).armed ==> After(h, n, rearm).lastEvaluable != Some(Breach)
  {
    if n > 0 { ArmedNeverAfterBreach(h, n - 1, rearm); }
  }

  /** The within run a disarmed key is recording, in terms of the events since `from`. */
  ghost predicate Recording(h: seq<Event>, from: nat, n: nat, ks: KeyState)
    requires n <= |h|
  {
    && !ks.armed
    && (ks.withinSince.Some? ==>
          exists a: nat :: from <= a < n && RecordsFrom(h, a, n, ks))
  }

  ghost predicate RecordsFrom(h: seq<Event>, a: nat, n: nat, ks: KeyState)
    requires a < n <= |h|
  {
    && IsWithin(h[a]) && ks.withinSince == Some(h[a].now)
    && (forall k :: a <= k < n ==> !IsBreach(h[k]))
    && ks.withinCount == Withins(h, a, n)
  }

  lemma WithinsOfOne(h: seq<Event>, a: nat)
    requires a < |h|
    ensures Withins(h, a, a + 1) == if IsWithin(h[a]) then 1 else 0
  {
    assert Withins(h, a, a) == 0;
  }

  /** Between two accepted verdicts the key is either still recording or has been
      re-armed by a run of the required length. No assumption on the clock. */
  lemma {:induction false} RecordingOrRearmed(h: seq<Event>, i: nat, n: nat, rearm: real)
    requires i < n <= |h| && AcceptedAt(h, i, rearm)
    requires forall k: nat :: i < k < n ==> !AcceptedAt(h, k, rearm)
    ensures RearmedIn(h, i + 1, n, rearm) || Recording(h, i + 1, n, After(h, n, rearm))
    decreases n
  {
    if n > i + 1 {
      RecordingOrRearmed(h, i, n - 1, rearm);
      var ks, e := After(h, n - 1, rearm), h[n - 1];
      if RearmedIn(h, i + 1, n - 1, rearm) {
        var a: nat, b: nat :| i + 1 <= a && b < n - 1 && RearmRun(h, a, b, rearm);
        assert RearmedIn(h, i + 1, n, rearm);
      } else if IsWithin(e) {
        StepRecording(h, i + 1, n, ks, rearm);
      } else if !IsBreach(e) && ks.withinSince.Some? {
        var a: nat :| i + 1 <= a < n - 1 && RecordsFrom(h, a, n - 1, ks);
        assert RecordsFrom(h, a, n, Commit(ks, e, rearm));
      }
    }
  }

  lemma StepRecording(h: seq<Event>, from: nat, n: nat, ks: KeyState, rearm: real)
    requires from < n <= |h| && Recording(h, from, n - 1, ks) && IsWithin(h[n - 1])
    ensures RearmedIn(h, from, n, rearm) || Recording(h, from, n, Commit(ks, h[n - 1], rearm))
  {
    var e := h[n - 1];
    var next := Commit(ks, e, rearm);
    var a: nat := n - 1;
    if ks.withinSince.Some? && ks.withinSince.value <= e.now {
      a :| from <= a < n - 1 && RecordsFrom(h, a, n - 1, ks);
    } else {
      WithinsOfOne(h, n - 1);
    }
    assert RecordsFrom(h, a, n, next);
    if next.armed {
      assert RearmRun(h, a, n - 1, rearm);
    }
  }

  /** An accepted breach disarms; nothing but a rearm run arms the key again. */
  lemma {:induction false} ArmedOnlyIfRecovered(h: seq<Event>, n: nat, rearm: real)
    requires n <= |h| && After(h, n, rearm).armed
    ensures Recovered(h, n, rearm)
  {
    forall i: nat | i < n && AcceptedAt(h, i, rearm)
      ensures RearmedIn(h, i + 1, n, rearm)
    {
      var last := LastAccepted(h, i, n, rearm);
      RecordingOrRearmed(h, last, n, rearm);
      var a: nat, b: nat :| last + 1 <= a && b < n && RearmRun(h, a, b, rearm);
    }
  }

  ghost function LastAccepted(h: seq<Event>, i: nat, n: nat, rearm: real): (last: nat)
    requires i < n <= |h| && AcceptedAt(h, i, rearm)
    ensures i <= last < n && AcceptedAt(h, last, rearm)
    ensures forall k: nat :: last < k < n ==> !AcceptedAt(h, k, rearm)
  {
    if AcceptedAt(h, n - 1, rearm) then n - 1 else LastAccepted(h, i, n - 1, rearm)
  }

  /** Two accepted breach verdicts of a key are separated by a breach-free run of at
      least REARM_INTERVALS within evaluations lasting at least `rearm`, for any clock. */
  lemma AcceptedBreachesAreSeparated(h: seq<Event>, i: nat, j: nat, rearm: real)
    requires i < j < |h| && AcceptedAt(h, i, rearm) && AcceptedAt(h, j, rearm)
    ensures RearmedIn(h, i + 1, j, rearm)
  {
    ArmedOnlyIfRecovered(h, j, rearm);
  }

  /** Two breach verdicts core has stored enclose such a run too, unless the run that raised
      the first was cancelled before core's answer arrived. */
  lemma StoredBreachesAreSeparated(h: seq<Event>, i: nat, j: nat, rearm: real)
    requires i < j < |h| && StoredAt(h, i, rearm) && StoredAt(h, j, rearm)
    ensures RearmedIn(h, i + 1, j, rearm) || h[i].CutOff?
  {
    if h[i].Evaluated? {
      assert AcceptedAt(h, i, rearm);
      ArmedOnlyIfRecovered(h, j, rearm);
    }
  }

  lemma {:induction false} ArmedUntilAccepted(h: seq<Event>, m: nat, n: nat, rearm: real)
    requires m <= n <= |h| && After(h, m, rearm).armed
    requires forall k: nat :: m <= k < n ==> !AcceptedAt(h, k, rearm)
    ensures After(h, n, rearm).armed
    decreases n
  {
    if m < n {
      ArmedUntilAccepted(h, m, n - 1, rearm);
      assert !AcceptedAt(h, n - 1, rearm);
    }
  }

  /** Whatever the state before it (a run recorded in the future included), after a
      breach-free stretch the recorded run is at least as old and as long as the stretch,
      if the clock does not go back inside it. */
  lemma {:induction false} RunAtLeast(ks: KeyState, h: seq<Event>, a: nat, m: nat, rearm: real)
    requires a < m <= |h| && ClockForward(h, a, m)
    requires IsWithin(h[a]) && forall k :: a <= k < m ==> !IsBreach(h[k])
    ensures var now := From(ks, h, m, rearm);
            now.withinSince.Some? && now.withinSince.value <= h[a].now && now.withinCount >= Withins(h, a, m)
    decreases m
  {
    if m == a + 1 {
      WithinsOfOne(h, a);
    } else {
      RunAtLeast(ks, h, a, m - 1, rearm);
    }
  }

  /** A re-arm run arms a key whatever state it was in; only the clock inside the run
      matters, so a backward clock delays re-arming but cannot stop it. */
  lemma RearmRunArms(ks: KeyState, h: seq<Event>, a: nat, b: nat, rearm: real)
    requires RearmRun(h, a, b, rearm) && ClockForward(h, a, b + 1)
    ensures From(ks, h, b + 1, rearm).armed && From(ks, h, b + 1, rearm).lastEvaluable == Some(Within)
  {
    RunAtLeast(ks, h, a, b + 1, rearm);
    if a == b {
      WithinsOfOne(h, a);
    } else {
      RunAtLeast(ks, h, a, b, rearm);
    }
  }

  lemma ArmedAfterRun(h: seq<Event>, i: nat, n: nat, rearm: real)
    requires i < n <= |h| && ClockForward(h, 0, |h|) && RearmedIn(h, i + 1, n, rearm)
    requires forall k: nat :: i < k < n ==> !AcceptedAt(h, k, rearm)
    ensures After(h, n, rearm).armed
  {
    var a: nat, b: nat :| i + 1 <= a && b < n && RearmRun(h, a, b, rearm);
    RearmRunArms(FRESH, h, a, b, rearm);
    ArmedUntilAccepted(h, b + 1, n, rearm);
  }

  lemma ArmedIfRecovered(h: seq<Event>, n: nat, rearm: real)
    requires n <= |h| && ClockForward(h, 0, |h|) && Recovered(h, n, rearm)
    ensures After(h, n, rearm).armed
  {
    if i: nat :| i < n && AcceptedAt(h, i, rearm) {
      ArmedAfterRun(h, LastAccepted(h, i, n, rearm), n, rearm);
    } else {
      ArmedUntilAccepted(h, 0, n, rearm);
    }
  }

  /** MAIN: with a clock that never goes back, the recorded flag is exactly the
      reference definition over the whole history. */
  lemma ArmedIffRecovered(h: seq<Event>, n: nat, rearm: real)
    requires n <= |h| && ClockForward(h, 0, |h|)
    ensures After(h, n, rearm).armed <==> Recovered(h, n, rearm)
  {
    if After(h, n, rearm).armed { ArmedOnlyIfRecovered(h, n, rearm); }
    if Recovered(h, n, rearm) { ArmedIfRecovered(h, n, rearm); }
  }

  /** A verdict is raised at event n iff its status is a breach and every earlier accepted
      breach has been recovered from. */
  lemma FiresIffRecovered(h: seq<Event>, n: nat, rearm: real)
    requires n < |h| && ClockForward(h, 0, |h|)
    ensures Fires(After(h, n, rearm), h[n], rearm) <==>
            !h[n].Skipped? && h[n].status == Breach && Recovered(h, n, rearm)
  {
    ArmedIffRecovered(h, n, rearm);
    ArmedNeverAfterBreach(h, n, rearm);
  }

  predicate Unevaluable(e: Event) { e.Evaluated? ==> e.status == NotEvaluable || e.status == Unrecognised }

  /** A breach verdict core rejects, or whose answer did not arrive, is raised again by the
      next breach, whatever unevaluable, cut-off or skipped cycles lie in between. */
  lemma {:induction false} RejectedBreachFiresAgain(h: seq<Event>, i: nat, j: nat, rearm: real)
    requires i < j < |h| && Fires(After(h, i, rearm), h[i], rearm) && !Accepts(After(h, i, rearm), h[i], rearm)
    requires IsBreach(h[j]) && forall k :: i < k < j ==> Unevaluable(h[k])
    ensures After(h, j, rearm) == After(h, i, rearm)
    ensures Fires(After(h, j, rearm), h[j], rearm)
    decreases j
  {
    assert After(h, i + 1, rearm) == After(h, i, rearm);
    UnchangedWhileUnevaluable(h, i + 1, j, rearm);
  }

  lemma {:induction false} UnchangedWhileUnevaluable(h: seq<Event>, m: nat, n: nat, rearm: real)
    requires m <= n <= |h|
    requires forall k :: m <= k < n ==> Unevaluable(h[k])
    ensures After(h, n, rearm) == After(h, m, rearm)
    decreases n
  {
    if m < n { UnchangedWhileUnevaluable(h, m, n - 1, rearm); }
  }
}
