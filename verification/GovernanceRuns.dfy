/** What the governance ledger keeps over any run of measure cycles - completed, failed or empty -
    restarts and lost states. */
module GovernanceRuns {
  import opened Wrappers
  import opened Hysteresis
  import opened ThresholdKeys
  import opened Migration
  import opened ThresholdPhase
  import opened Autonomy
  import opened Governance
  import opened GovernanceLaws
  import opened FailedCycles

  datatype Happening =
    | Ran(inputs: Inputs, settings: Settings)
    | Failed(inputs: Inputs, settings: Settings, reach: Reach)  // the cycle raised after the threshold phase
    | NoManifests                 // the response failed or was empty, or the cycle raised before that
    | Restarted(from: nat)        // restored from the state persisted after `from` happenings
    | Lost                        // restarted without a readable state

  const EMPTY := Ledger(map[], map[], map[], map[], {}, map[], None)

  ghost predicate Follows(ledgers: seq<Ledger>, i: nat, h: Happening)
    requires i + 1 < |ledgers|
  {
    match h
    case Ran(inputs, settings) => inputs.Ok() && ledgers[i + 1] == CycleOf(ledgers[i], inputs, settings)
    case Failed(inputs, settings, reach) =>
      inputs.Ok() && ledgers[i + 1] == FailedCycle(ledgers[i], inputs, settings, reach)
    case NoManifests => ledgers[i + 1] == ledgers[i]
    case Restarted(from) => from <= i && ledgers[i + 1] == Restore(GetState(ledgers[from]))
    case Lost => ledgers[i + 1] == EMPTY
  }

  /** `ledgers` are those before, between and after the happenings, from any first one. */
  ghost predicate IsRun(hs: seq<Happening>, ledgers: seq<Ledger>) {
    && |ledgers| == |hs| + 1
    && forall i :: 0 <= i < |hs| ==> Follows(ledgers, i, hs[i])
  }

  ghost predicate AutonomyAlwaysOn(hs: seq<Happening>) {
    forall i :: 0 <= i < |hs| && hs[i].Ran? ==> hs[i].settings.autonomy
  }

  ghost predicate Sound(l: Ledger, governsAll: bool) {
    InSync(l) && SlosInSync(l) && (governsAll ==> AllGoverned(l))
  }

  lemma EmptyIsSound()
    ensures Sound(EMPTY, true) && ThresholdsHigh(EMPTY) && LevelsKnown(EMPTY)
  {
  }

  lemma RestoreKeepsSound(l: Ledger, governsAll: bool)
    requires Sound(l, governsAll)
    ensures Sound(Restore(GetState(l)), governsAll)
  {
    RestoreLosesNothing(l);
  }

  lemma CycleKeepsSound(l: Ledger, inputs: Inputs, settings: Settings, governsAll: bool)
    requires inputs.Ok() && Sound(l, governsAll) && (governsAll ==> settings.autonomy)
    ensures Sound(CycleOf(l, inputs, settings), governsAll)
  {
    hide CycleOf, InSync, SlosInSync, AllGoverned;
    CycleKeepsSync(l, inputs, settings);
    CycleKeepsSlosInSync(l, inputs, settings);
  }

  /** No cycle failed in the history the ledger after `n` happenings descends from. */
  predicate Untroubled(hs: seq<Happening>, n: nat)
    requires n <= |hs|
    decreases n
  {
    n == 0 || (!hs[n - 1].Failed? && (Parent(hs, n).Some? ==> Untroubled(hs, Parent(hs, n).value)))
  }

  lemma StepKeepsSound(hs: seq<Happening>, ledgers: seq<Ledger>, n: nat, governsAll: bool)
    requires IsRun(hs, ledgers) && 0 < n <= |hs| && !hs[n - 1].Failed?
    requires governsAll && hs[n - 1].Ran? ==> hs[n - 1].settings.autonomy
    requires Parent(hs, n).Some? ==> Sound(ledgers[Parent(hs, n).value], governsAll)
    ensures Sound(ledgers[n], governsAll)
  {
    hide CycleOf, Sound;
    assert Follows(ledgers, n - 1, hs[n - 1]);
    match hs[n - 1] {
      case Ran(inputs, settings) => CycleKeepsSound(ledgers[n - 1], inputs, settings, governsAll);
      case NoManifests =>
      case Restarted(from) => RestoreKeepsSound(ledgers[from], governsAll);
      case Lost => EmptyIsSound(); SoundForAll(EMPTY, governsAll);
    }
  }

  lemma SoundForAll(l: Ledger, governsAll: bool)
    requires Sound(l, true)
    ensures Sound(l, governsAll)
  {
  }

  /** MAIN: over any run from a ledger in step, the empty one included - any evaluations, core
      refusals, sibling edits, retirements, cancelled runs, restarts from any saved state and
      lost states - a threshold key has a decision iff it is governed, and only while its
      breach is open; with autonomy on throughout, exactly while its breach is open. SLO keys
      are decided exactly while they last evaluated to a breach. Only a cycle that fails
      midway can end this; FailedCycles says when, and `HeldThroughFailures` what remains. */
  lemma {:induction false} LedgerAlwaysInSync(hs: seq<Happening>, ledgers: seq<Ledger>, n: nat, governsAll: bool)
    requires IsRun(hs, ledgers) && n <= |hs| && Sound(ledgers[0], governsAll) && (governsAll ==> AutonomyAlwaysOn(hs))
    requires Untroubled(hs, n)
    ensures Sound(ledgers[n], governsAll)
    decreases n
  {
    hide Follows, Sound;
    if n > 0 {
      if Parent(hs, n).Some? { LedgerAlwaysInSync(hs, ledgers, Parent(hs, n).value, governsAll); }
      StepKeepsSound(hs, ledgers, n, governsAll);
    }
  }

  /** Restarts in the history of the ledger after `n` happenings restored ledgers whose governed
      keys all had threshold state. */
  ghost predicate RestoredWhole(hs: seq<Happening>, ledgers: seq<Ledger>, n: nat)
    requires |ledgers| == |hs| + 1 && n <= |hs|
    decreases n
  {
    n == 0 || Parent(hs, n).None? ||
    (RestoredWhole(hs, ledgers, Parent(hs, n).value) &&
     (hs[n - 1].Restarted? ==> Restorable(ledgers[Parent(hs, n).value])))
  }

  /** MAIN: failed cycles included, only governed threshold keys have a decision or a severity,
      and every SLO stored as breaching is decided; and after each complete cycle only open
      breaches are governed, so what a failure left behind for release is cleaned up. */
  lemma {:induction false} HeldThroughFailures(hs: seq<Happening>, ledgers: seq<Ledger>, n: nat)
    requires IsRun(hs, ledgers) && n <= |hs| && Held(ledgers[0]) && RestoredWhole(hs, ledgers, n)
    ensures Held(ledgers[n]) && (n > 0 && hs[n - 1].Ran? ==> Closed(ledgers[n]))
    decreases n
  {
    hide Held, Closed, Restorable, CycleOf, FailedCycle;
    if n > 0 {
      assert Follows(ledgers, n - 1, hs[n - 1]);
      if Parent(hs, n).Some? { HeldThroughFailures(hs, ledgers, Parent(hs, n).value); }
      StepKeepsHeld(hs, ledgers, n);
    }
  }

  lemma StepKeepsHeld(hs: seq<Happening>, ledgers: seq<Ledger>, n: nat)
    requires IsRun(hs, ledgers) && 0 < n <= |hs| && (Parent(hs, n).Some? ==> Held(ledgers[Parent(hs, n).value]))
    requires hs[n - 1].Restarted? ==> Restorable(ledgers[hs[n - 1].from])
    ensures Held(ledgers[n]) && (hs[n - 1].Ran? ==> Closed(ledgers[n]))
  {
    hide Held, Closed, Restorable, CycleOf, FailedCycle;
    assert Follows(ledgers, n - 1, hs[n - 1]);
    match hs[n - 1] {
      case Ran(inputs, settings) => CycleKeepsHeld(ledgers[n - 1], inputs, settings);
      case Failed(inputs, settings, reach) => FailureKeepsHeld(ledgers[n - 1], inputs, settings, reach);
      case NoManifests =>
      case Restarted(from) => RestoreKeepsHeldIff(ledgers[from]);
      case Lost => EmptyIsSound(); InSyncIsHeld(EMPTY);
    }
  }

  /** Over any run, every threshold breach in the ledger counts as high. */
  lemma {:induction false} ThresholdBreachesAlwaysHigh(hs: seq<Happening>, ledgers: seq<Ledger>, n: nat)
    requires IsRun(hs, ledgers) && n <= |hs| && ThresholdsHigh(ledgers[0])
    ensures forall m :: 0 <= m <= n ==> ThresholdsHigh(ledgers[m])
  {
    hide Follows, ThresholdsHigh;
    if n > 0 {
      ThresholdBreachesAlwaysHigh(hs, ledgers, n - 1);
      StepKeepsHigh(ledgers, n - 1, hs[n - 1]);
    }
  }

  lemma StepKeepsHigh(ledgers: seq<Ledger>, i: nat, h: Happening)
    requires i + 1 < |ledgers| && Follows(ledgers, i, h) && forall m :: 0 <= m <= i ==> ThresholdsHigh(ledgers[m])
    ensures ThresholdsHigh(ledgers[i + 1])
  {
    hide CycleOf, FailedCycle, ThresholdsHigh;
    match h {
      case Ran(inputs, settings) => CycleKeepsThresholdsHigh(ledgers[i], inputs, settings);
      case Failed(inputs, settings, reach) => FailureKeepsThresholdsHigh(ledgers[i], inputs, settings, reach);
      case NoManifests =>
      case Restarted(from) => RestoreKeepsThresholdsHigh(ledgers[from]);
      case Lost => EmptyIsSound();
    }
  }

  lemma RestoreKeepsThresholdsHigh(l: Ledger)
    requires ThresholdsHigh(l)
    ensures ThresholdsHigh(Restore(GetState(l)))
  {
  }

  // ---------- lineages ----------

  /** The ledger that the one after `n` happenings was made from: the one before, or the saved
      one it was restored from. A lost state was made from nothing. */
  function Parent(hs: seq<Happening>, n: nat): Option<nat>
    requires 0 < n <= |hs|
  {
    match hs[n - 1]
    case Restarted(from) => if from < n then Some(from) else None
    case Lost => None
    case _ => Some(n - 1)
  }

  /** The ledger after `n` happenings descends from the one after `m`. */
  predicate Descends(hs: seq<Happening>, m: nat, n: nat)
    requires n <= |hs|
    decreases n
  {
    m == n || (n > 0 && Parent(hs, n).Some? && Descends(hs, m, Parent(hs, n).value))
  }

  /** Happening i reduced the service. */
  ghost predicate ReducedAt(hs: seq<Happening>, ledgers: seq<Ledger>, i: nat, service: string)
    requires IsRun(hs, ledgers) && i < |hs|
  {
    assert Follows(ledgers, i, hs[i]);
    match hs[i]
    case Ran(inputs, settings) => Reduces(ledgers[i], inputs, settings, service)
    case Failed(inputs, settings, reach) => ReducesIn(ledgers[i], inputs, settings, reach, service)
    case _ => false
  }

  ghost function BreachesAt(hs: seq<Happening>, ledgers: seq<Ledger>, i: nat, service: string): nat
    requires IsRun(hs, ledgers) && i < |hs|
  {
    assert Follows(ledgers, i, hs[i]);
    if hs[i].Ran? || hs[i].Failed? then |NewBreachesOf(ledgers[i], hs[i].inputs, hs[i].settings, service)| else 0
  }

  function Level(l: Ledger, service: string): string { LevelOf(l.levels, service) }

  /** Reductions, new breaches and level changes of a service in the history a ledger
      descends from. */
  datatype Tally = Tally(reductions: nat, breaches: nat, changes: nat)

  ghost function TallyOf(hs: seq<Happening>, ledgers: seq<Ledger>, n: nat, service: string): Tally
    requires IsRun(hs, ledgers) && n <= |hs|
    decreases n
  {
    if n == 0 || Parent(hs, n).None? then Tally(0, 0, 0)
    else
      var t := TallyOf(hs, ledgers, Parent(hs, n).value, service);
      Tally(t.reductions + (if ReducedAt(hs, ledgers, n - 1, service) then 1 else 0),
            t.breaches + BreachesAt(hs, ledgers, n - 1, service),
            t.changes + (if Level(ledgers[n], service) != Level(ledgers[Parent(hs, n).value], service) then 1 else 0))
  }

  lemma {:induction false} LevelsAlwaysKnown(hs: seq<Happening>, ledgers: seq<Ledger>, n: nat)
    requires IsRun(hs, ledgers) && n <= |hs| && LevelsKnown(ledgers[0])
    ensures forall m :: 0 <= m <= n ==> LevelsKnown(ledgers[m])
  {
    hide Follows, LevelsKnown;
    if n > 0 {
      LevelsAlwaysKnown(hs, ledgers, n - 1);
      StepKeepsLevelsKnown(ledgers, n - 1, hs[n - 1]);
    }
  }

  lemma StepKeepsLevelsKnown(ledgers: seq<Ledger>, i: nat, h: Happening)
    requires i + 1 < |ledgers| && Follows(ledgers, i, h) && forall m :: 0 <= m <= i ==> LevelsKnown(ledgers[m])
    ensures LevelsKnown(ledgers[i + 1])
  {
    hide CycleOf, FailedCycle;
    match h {
      case Ran(inputs, settings) => CycleRatchets(ledgers[i], inputs, settings, "");
      case Failed(inputs, settings, reach) => FailureRatchets(ledgers[i], inputs, settings, reach, "");
      case NoManifests =>
      case Restarted(from) =>
      case Lost =>
    }
  }

  /** One step of a lineage: the level does not rise, and changes only in a reduction, which
      needs a new breach. */
  lemma StepRatchets(hs: seq<Happening>, ledgers: seq<Ledger>, n: nat, service: string)
    requires IsRun(hs, ledgers) && 0 < n <= |hs| && Parent(hs, n).Some? && LevelsKnown(ledgers[Parent(hs, n).value])
    ensures var was, now := Level(ledgers[Parent(hs, n).value], service), Level(ledgers[n], service);
            && Rank(was) <= Rank(now)
            && (was != now ==> Rank(was) < Rank(now) && ReducedAt(hs, ledgers, n - 1, service))
    ensures ReducedAt(hs, ledgers, n - 1, service) ==> BreachesAt(hs, ledgers, n - 1, service) > 0
  {
    hide CycleOf, FailedCycle, Reduces, NewBreachesOf, Rank;
    assert Follows(ledgers, n - 1, hs[n - 1]);
    match hs[n - 1] {
      case Ran(inputs, settings) =>
        CycleRatchets(ledgers[n - 1], inputs, settings, service);
        RanksDistinct(ledgers[n - 1], ledgers[n], service);
      case Failed(inputs, settings, reach) =>
        FailureRatchets(ledgers[n - 1], inputs, settings, reach, service);
        RanksDistinct(ledgers[n - 1], ledgers[n], service);
      case _ =>
    }
  }

  lemma RanksDistinct(l: Ledger, l': Ledger, service: string)
    requires LevelsKnown(l) && LevelsKnown(l')
    ensures 0 <= Rank(Level(l, service)) <= 4
    ensures Rank(Level(l, service)) == Rank(Level(l', service)) ==> Level(l, service) == Level(l', service)
  {
  }

  /** MAIN: the ratchet. In the history a ledger descends from, through any cycles and
      restarts, a service's rank never decreases, its level changes at most as often as it
      has moved down the ladder, so at most four times, and it is reduced at most once for
      each of its new breaches. */
  lemma {:induction false} RatchetOverLineage(hs: seq<Happening>, ledgers: seq<Ledger>, m: nat, n: nat, service: string)
    requires IsRun(hs, ledgers) && LevelsKnown(ledgers[0]) && n <= |hs| && Descends(hs, m, n)
    ensures m <= n && Rank(Level(ledgers[m], service)) <= Rank(Level(ledgers[n], service)) <= 4
    ensures var t := TallyOf(hs, ledgers, n, service);
            t.changes <= Rank(Level(ledgers[n], service)) <= 4 && t.changes <= t.reductions <= t.breaches
    decreases n
  {
    hide ReducedAt, BreachesAt, Level, LevelsKnown, Rank, Follows;
    LevelsAlwaysKnown(hs, ledgers, n);
    RanksDistinct(ledgers[n], ledgers[n], service);
    if n > 0 && Parent(hs, n).Some? {
      var p := Parent(hs, n).value;
      RatchetOverLineage(hs, ledgers, if m == n then p else m, p, service);
      StepRatchets(hs, ledgers, n, service);
    }
  }

  /** Outside its lineage a service's rank can drop, and exactly so: a happening lowers it iff
      it is a restart from a ledger of lower rank, a lost state counting as the empty one. */
  lemma RankDropsIff(hs: seq<Happening>, ledgers: seq<Ledger>, i: nat, service: string)
    requires IsRun(hs, ledgers) && LevelsKnown(ledgers[0]) && i < |hs|
    ensures Rank(Level(ledgers[i + 1], service)) < Rank(Level(ledgers[i], service)) <==>
            || (hs[i].Restarted? && Rank(Level(ledgers[hs[i].from], service)) < Rank(Level(ledgers[i], service)))
            || (hs[i].Lost? && 0 < Rank(Level(ledgers[i], service)))
  {
    hide CycleOf, FailedCycle, Reduces, ReducesIn, NewBreachesOf;
    LevelsAlwaysKnown(hs, ledgers, i);
    assert Follows(ledgers, i, hs[i]);
    match hs[i] {
      case Ran(inputs, settings) => CycleRatchets(ledgers[i], inputs, settings, service);
      case Failed(inputs, settings, reach) => FailureRatchets(ledgers[i], inputs, settings, reach, service);
      case _ =>
    }
  }

  // ---------- SLO status along a lineage ----------

  lemma CycleRecordsStatus(l: Ledger, inputs: Inputs, settings: Settings, k: GovKey)
    requires inputs.Ok()
    ensures Lookup(CycleOf(l, inputs, settings).sloStatus, k) ==
            if k in inputs.evaluated then Some(inputs.evaluated[k]) else Lookup(l.sloStatus, k)
  {
    hide RoundOf, BreachesIn, MigratedState, PhaseState, RenamedStore, RenamedKeys;
  }

  /** The last status SLO `k` evaluated to, in a cycle that was completed, in the history the
      ledger after `n` happenings descends from; failed evaluations are transparent. */
  ghost function LastEvaluated(hs: seq<Happening>, first: Ledger, n: nat, k: GovKey): Option<SloStatus>
    requires n <= |hs|
    decreases n
  {
    if n == 0 then Lookup(first.sloStatus, k)
    else if hs[n - 1].Ran? && k in hs[n - 1].inputs.evaluated then Some(hs[n - 1].inputs.evaluated[k])
    else if Parent(hs, n).None? then None
    else LastEvaluated(hs, first, Parent(hs, n).value, k)
  }

  lemma {:induction false} StatusIsLastEvaluated(hs: seq<Happening>, ledgers: seq<Ledger>, n: nat, k: GovKey)
    requires IsRun(hs, ledgers) && n <= |hs|
    ensures Lookup(ledgers[n].sloStatus, k) == LastEvaluated(hs, ledgers[0], n, k)
    decreases n
  {
    hide CycleOf, FailedCycle;
    if n > 0 {
      assert Follows(ledgers, n - 1, hs[n - 1]);
      if Parent(hs, n).Some? { StatusIsLastEvaluated(hs, ledgers, Parent(hs, n).value, k); }
      match hs[n - 1] {
        case Ran(inputs, settings) => CycleRecordsStatus(ledgers[n - 1], inputs, settings, k);
        case Failed(inputs, settings, reach) => StatusesStay(ledgers[n - 1], inputs, settings, reach);
        case _ =>
      }
    }
  }

  /** Happening i raises a breach verdict for SLO `k`. */
  ghost predicate RaisesBreach(hs: seq<Happening>, ledgers: seq<Ledger>, i: nat, k: GovKey)
    requires |ledgers| == |hs| + 1 && i < |hs|
  {
    && (hs[i].Ran? || hs[i].Failed?) && k in Transitions(hs[i].inputs.evaluated, ledgers[i].sloStatus)
    && (hs[i].Failed? && hs[i].reach.InVerdicts? ==> k in hs[i].reach.sent)
  }

  /** Happening c, in the lineage between m and n, evaluated `k` healthy. */
  predicate HealthyBetween(hs: seq<Happening>, m: nat, c: nat, n: nat, k: GovKey)
    requires n <= |hs|
  {
    && m <= c < n && hs[c].Ran? && Governance.Recovered(hs[c].inputs.evaluated, k)
    && Descends(hs, m, c) && Descends(hs, c + 1, n)
  }

  /** The lineage between m and n evaluated `k` healthy. */
  ghost predicate RecoversBetween(hs: seq<Happening>, m: nat, n: nat, k: GovKey)
    requires n <= |hs|
  {
    exists c :: HealthyBetween(hs, m, c, n, k)
  }

  /** Two breach verdicts for an SLO in one lineage enclose a healthy evaluation of it, unless
      the cycle that raised the first failed before it stored the status. */
  lemma BreachVerdictsEncloseRecovery(hs: seq<Happening>, ledgers: seq<Ledger>, i: nat, j: nat, k: GovKey)
    requires IsRun(hs, ledgers) && i < |hs| && j < |hs| && Descends(hs, i + 1, j)
    requires RaisesBreach(hs, ledgers, i, k) && RaisesBreach(hs, ledgers, j, k)
    ensures RecoversBetween(hs, i + 1, j, k) || hs[i].Failed?
  {
    StatusIsLastEvaluated(hs, ledgers, j, k);
    if hs[i].Ran? { BreachUntilHealthy(hs, ledgers[0], i, j, k); }
  }

  /** And then the next completed cycle in which it still breaches does raise it again. */
  lemma LostStatusIsRaisedAgain(hs: seq<Happening>, ledgers: seq<Ledger>, i: nat, k: GovKey)
    requires IsRun(hs, ledgers) && i + 1 < |hs| && hs[i].Failed? && RaisesBreach(hs, ledgers, i, k)
    requires hs[i + 1].Ran? && Lookup(hs[i + 1].inputs.evaluated, k) == Some(Breaching)
    ensures RaisesBreach(hs, ledgers, i + 1, k)
  {
    hide FailedCycle;
    assert Follows(ledgers, i, hs[i]);
    StatusesStay(ledgers[i], hs[i].inputs, hs[i].settings, hs[i].reach);
  }

  lemma {:induction false} BreachUntilHealthy(hs: seq<Happening>, first: Ledger, i: nat, n: nat, k: GovKey)
    requires i < |hs| && n <= |hs| && Descends(hs, i + 1, n)
    requires hs[i].Ran? && Lookup(hs[i].inputs.evaluated, k) == Some(Breaching)
    ensures LastEvaluated(hs, first, n, k) == Some(Breaching) || RecoversBetween(hs, i + 1, n, k)
    decreases n
  {
    if n != i + 1 {
      var p := Parent(hs, n).value;
      BreachUntilHealthy(hs, first, i, p, k);
      DescendsOrders(hs, i + 1, p);
      if hs[n - 1].Ran? && k in hs[n - 1].inputs.evaluated && hs[n - 1].inputs.evaluated[k] == Healthy {
        assert HealthyBetween(hs, i + 1, n - 1, n, k);
      } else if RecoversBetween(hs, i + 1, p, k) {
        var c: nat :| HealthyBetween(hs, i + 1, c, p, k);
        assert HealthyBetween(hs, i + 1, c, n, k);
      }
    }
  }

  lemma {:induction false} DescendsOrders(hs: seq<Happening>, m: nat, n: nat)
    requires n <= |hs| && Descends(hs, m, n)
    ensures m <= n
    decreases n
  {
    if m != n { DescendsOrders(hs, m, Parent(hs, n).value); }
  }
}
