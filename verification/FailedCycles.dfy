/** What is left of the ledger's invariants when a measure cycle fails after the threshold phase:
    the runner logs the exception and goes on with the fields as they are. */
module FailedCycles {
  import opened Wrappers
  import opened Hysteresis
  import opened ThresholdKeys
  import opened Migration
  import opened ThresholdPhase
  import opened Autonomy
  import opened Governance
  import opened GovernanceLaws

  // ---------- what survives ----------

  /** Only governed threshold keys have a decision or a severity. */
  ghost predicate KeyHeld(l: Ledger, k: Key) {
    ThresholdKey(k) in l.decisions || ThresholdKey(k) in l.severities ==> k in l.governed
  }

  /** An SLO stored as breaching is decided. */
  ghost predicate SloHeld(l: Ledger, k: GovKey) { Lookup(l.sloStatus, k) == Some(Breaching) ==> k in l.decisions }

  ghost predicate Held(l: Ledger) {
    && (forall k :: KeyHeld(l, k))
    && (forall k :: k in l.sloStatus ==> k.SloKey?)
    && (forall k :: SloHeld(l, k))
  }

  /** Only open breaches are governed. */
  ghost predicate Closed(l: Ledger) { forall k :: k in l.governed ==> IsOpen(l.thresholds, k) }

  lemma InSyncIsHeld(l: Ledger)
    requires InSync(l) && SlosInSync(l)
    ensures Held(l) && Closed(l)
  {
    assert forall k :: KeyInSync(l, k) ==> KeyHeld(l, k) && (k in l.governed ==> IsOpen(l.thresholds, k));
  }

  lemma RenameKeepsHeld(l: Ledger, inputs: Inputs, interval: real, k: Key)
    requires inputs.Ok() && Held(l)
    ensures KeyHeld(AfterThresholds(l, inputs, interval), k)
  {
    hide AfterThresholds, RenamingOf, BackOf, SloHeld;
    RenamedPointwise(l, inputs, interval, k);
    assert KeyHeld(l, k);
  }

  lemma TreatingKeepsHeld(l: Ledger, inputs: Inputs, settings: Settings, treated: set<string>, k: Key)
    requires inputs.Ok() && Held(l)
    ensures var l1 := AfterThresholds(l, inputs, settings.interval);
            KeyHeld(AfterTreating(AfterInjection(l, l1, inputs, settings), RoundOf(l, l1, inputs, settings),
                                  inputs.env.now, treated), k)
  {
    hide AfterThresholds, BreachesIn, Held, Decides, Acts, NextLevel, RoundOf;
    var l1 := AfterThresholds(l, inputs, settings.interval);
    RenameKeepsHeld(l, inputs, settings.interval, k);
    RoundOnThresholds(l, l1, inputs, settings, k);
    SloTransitions(inputs.evaluated, l.sloStatus);
  }

  /** What phase 1b and 2 and any part of phase 3 do to an SLO. */
  lemma TreatingOnSlos(l: Ledger, inputs: Inputs, settings: Settings, treated: set<string>, k: GovKey)
    requires inputs.Ok() && k.SloKey?
    ensures var l1 := AfterThresholds(l, inputs, settings.interval);
            var l3 := AfterTreating(AfterInjection(l, l1, inputs, settings), RoundOf(l, l1, inputs, settings),
                                    inputs.env.now, treated);
            && l3.sloStatus == l.sloStatus
            && (k in l.decisions ==> k in l3.decisions)
            && (k in l3.decisions ==> k in l.decisions || Lookup(inputs.evaluated, k) == Some(Breaching))
  {
    hide AfterThresholds, AfterInjection, RoundOf, Acts, NextLevel;
    RoundOnSlos(l, inputs, settings, k);
  }

  lemma StatusesStay(l: Ledger, inputs: Inputs, settings: Settings, reach: Reach)
    requires inputs.Ok()
    ensures FailedCycle(l, inputs, settings, reach).sloStatus == l.sloStatus
  {
    hide MigratedState, PhaseState, RenamedStore, RenamedKeys, BreachesIn, RoundOf;
  }

  /** A failed cycle keeps what survives. */
  lemma FailureKeepsHeld(l: Ledger, inputs: Inputs, settings: Settings, reach: Reach)
    requires inputs.Ok() && Held(l)
    ensures Held(FailedCycle(l, inputs, settings, reach))
  {
    hide Held, KeyHeld, SloHeld;
    var l' := FailedCycle(l, inputs, settings, reach);
    forall k: Key
      ensures KeyHeld(l', k)
    {
      FailureKeepsKeyHeld(l, inputs, settings, reach, k);
    }
    forall k: GovKey
      ensures SloHeld(l', k) && (k in l'.sloStatus ==> k.SloKey?)
    {
      FailureKeepsSloHeld(l, inputs, settings, reach, k);
    }
    assert Held(l') by { HeldPointwise(l'); }
  }

  lemma HeldPointwise(l: Ledger)
    requires forall k: Key :: KeyHeld(l, k)
    requires forall k: GovKey :: SloHeld(l, k) && (k in l.sloStatus ==> k.SloKey?)
    ensures Held(l)
  {
  }

  lemma FailureKeepsKeyHeld(l: Ledger, inputs: Inputs, settings: Settings, reach: Reach, k: Key)
    requires inputs.Ok() && Held(l)
    ensures KeyHeld(FailedCycle(l, inputs, settings, reach), k)
  {
    hide AfterThresholds, AfterInjection, AfterTreating, RoundOf, Held;
    match reach {
      case InVerdicts(sent) =>
        RenameKeepsHeld(l, inputs, settings.interval, k);
        SloTransitions(inputs.evaluated, l.sloStatus);
      case InGovernance(treated) => TreatingKeepsHeld(l, inputs, settings, treated, k);
    }
  }

  lemma FailureKeepsSloHeld(l: Ledger, inputs: Inputs, settings: Settings, reach: Reach, k: GovKey)
    requires inputs.Ok() && Held(l)
    ensures var l' := FailedCycle(l, inputs, settings, reach); SloHeld(l', k) && (k in l'.sloStatus ==> k.SloKey?)
  {
    hide AfterThresholds, AfterInjection, AfterTreating, RoundOf, KeyHeld;
    StatusesStay(l, inputs, settings, reach);
    assert SloHeld(l, k);
    if k.SloKey? {
      RoundOnSlos(l, inputs, settings, k);
      SlosKeepDecisions(l, inputs, settings.interval, k);
      if reach.InGovernance? { TreatingOnSlos(l, inputs, settings, reach.treated, k); }
    }
  }

  lemma SlosKeepDecisions(l: Ledger, inputs: Inputs, interval: real, k: GovKey)
    requires inputs.Ok() && k.SloKey?
    ensures k in AfterThresholds(l, inputs, interval).decisions <==> k in l.decisions
  {
    hide MigratedState, BreachesIn, PhaseState, RenamingOf, BackOf;
  }

  /** A complete cycle keeps it too, and after it only open breaches are governed, whatever the
      cycles before it left. */
  lemma CycleKeepsHeld(l: Ledger, inputs: Inputs, settings: Settings)
    requires inputs.Ok() && Held(l)
    ensures Held(CycleOf(l, inputs, settings)) && Closed(CycleOf(l, inputs, settings))
  {
    hide Held, KeyHeld, SloHeld, CycleOf;
    var c := CycleOf(l, inputs, settings);
    forall k: Key
      ensures KeyHeld(c, k) && (k in c.governed ==> IsOpen(c.thresholds, k))
    {
      CycleKeepsKeyHeld(l, inputs, settings, k);
    }
    forall k: GovKey
      ensures SloHeld(c, k) && (k in c.sloStatus ==> k.SloKey?)
    {
      CycleKeepsSloHeld(l, inputs, settings, k);
    }
    assert Held(c) by { HeldPointwise(c); }
  }

  lemma CycleKeepsKeyHeld(l: Ledger, inputs: Inputs, settings: Settings, k: Key)
    requires inputs.Ok() && Held(l)
    ensures var c := CycleOf(l, inputs, settings); KeyHeld(c, k) && (k in c.governed ==> IsOpen(c.thresholds, k))
  {
    hide AfterThresholds, AfterInjection, AfterTreating, RoundOf, Held, AfterRelease;
    var l1 := AfterThresholds(l, inputs, settings.interval);
    var r := RoundOf(l, l1, inputs, settings);
    TreatingKeepsHeld(l, inputs, settings, Owners(r.current), k);
    var l3 := AfterDecisions(AfterInjection(l, l1, inputs, settings), r, inputs.env.now);
    ReleaseOnThresholds(l3, inputs.evaluated, k);
  }

  lemma CycleKeepsSloHeld(l: Ledger, inputs: Inputs, settings: Settings, k: GovKey)
    requires inputs.Ok() && Held(l)
    ensures var c := CycleOf(l, inputs, settings); SloHeld(c, k) && (k in c.sloStatus ==> k.SloKey?)
  {
    hide AfterThresholds, AfterInjection, AfterTreating, RoundOf, KeyHeld, Acts;
    assert SloHeld(l, k);
    OnlyKnownStatuses(l, inputs, settings, k);
    if k.SloKey? { SloAfterCycle(l, inputs, settings, k); }
  }

  lemma OnlyKnownStatuses(l: Ledger, inputs: Inputs, settings: Settings, k: GovKey)
    requires inputs.Ok()
    ensures k in CycleOf(l, inputs, settings).sloStatus ==> k in l.sloStatus || k in inputs.evaluated
  {
    hide MigratedState, PhaseState, RenamedStore, RenamedKeys, BreachesIn, RoundOf;
  }

  // ---------- what is lost ----------

  /** The failed cycle left key `k` in step: it was not about to be released, and if its
      breach is new its service was treated. */
  ghost predicate ReachedKey(l: Ledger, inputs: Inputs, settings: Settings, reach: Reach, k: Key)
    requires inputs.Ok()
  {
    var l1 := AfterThresholds(l, inputs, settings.interval);
    && !Released(l1, k)
    && (reach.InGovernance? && k in Counted(BreachesIn(l, inputs, settings.interval), settings.autonomy) ==>
          Owner(ThresholdKey(k)) in reach.treated)
  }

  lemma FailureKeepsKeyIff(l: Ledger, inputs: Inputs, settings: Settings, reach: Reach, k: Key)
    requires inputs.Ok() && InSync(l)
    ensures KeyInSync(FailedCycle(l, inputs, settings, reach), k) <==> ReachedKey(l, inputs, settings, reach, k)
  {
    hide AfterThresholds, AfterTreating, BreachesIn, InSync, MigratedState, RoundOf;
    var l1 := AfterThresholds(l, inputs, settings.interval);
    RenameKeepsSync(l, inputs, settings.interval, k);
    PhaseOpenness(l, inputs, settings.interval, k);
    SloTransitions(inputs.evaluated, l.sloStatus);
    if reach.InGovernance? {
      RoundOnThresholds(l, l1, inputs, settings, k);
      TreatingOnThresholds(AfterInjection(l, l1, inputs, settings), RoundOf(l, l1, inputs, settings), inputs.env.now,
                           reach.treated, k);
    }
  }

  lemma TreatingOnThresholds(l: Ledger, r: Round, at: real, treated: set<string>, k: Key)
    requires ThresholdKey(k) in r.news ==> Lookup(r.current, ThresholdKey(k)) == Some(Breaching)
    requires Lookup(r.current, ThresholdKey(k)).Some? ==>
               Lookup(r.current, ThresholdKey(k)) == Some(Breaching) &&
               (ThresholdKey(k) in l.decisions || ThresholdKey(k) in r.news)
    ensures var l' := AfterTreating(l, r, at, treated);
            && l' == l.(decisions := l'.decisions, levels := l'.levels)
            && (ThresholdKey(k) in l'.decisions <==>
                  ThresholdKey(k) in l.decisions ||
                  (ThresholdKey(k) in r.news && Owner(ThresholdKey(k)) in treated))
  {
    var g := ThresholdKey(k);
    if g in r.news && g !in l.decisions {
      assert g in BreachingOf(r.current, Owner(g));
    }
  }

  /** MAIN: a ledger in step is still in step after a failed cycle exactly if no governed key was about
      to be released and the service of every new counted breach had been treated. */
  lemma FailureKeepsSyncIff(l: Ledger, inputs: Inputs, settings: Settings, reach: Reach)
    requires inputs.Ok() && InSync(l)
    ensures InSync(FailedCycle(l, inputs, settings, reach)) <==>
            forall k :: ReachedKey(l, inputs, settings, reach, k)
  {
    hide FailedCycle, ReachedKey, KeyInSync;
    forall k: Key
      ensures KeyInSync(FailedCycle(l, inputs, settings, reach), k) <==> ReachedKey(l, inputs, settings, reach, k)
    {
      assert InSync(l);
      FailureKeepsKeyIff(l, inputs, settings, reach, k);
    }
  }

  /** A breach that was missed stays missed: while it is open, no later cycle decides it. */
  lemma MissedBreachStaysMissed(l: Ledger, inputs: Inputs, settings: Settings, k: Key)
    requires inputs.Ok() && IsOpen(MigratedState(l.thresholds, inputs.Live()), k)
    requires ThresholdKey(k) !in AfterThresholds(l, inputs, settings.interval).decisions
    ensures ThresholdKey(k) !in CycleOf(l, inputs, settings).decisions
  {
    hide AfterThresholds, BreachesIn, MigratedState, RoundOf, AfterRelease, Acts;
    var l1 := AfterThresholds(l, inputs, settings.interval);
    var r := RoundOf(l, l1, inputs, settings);
    PhaseOpenness(l, inputs, settings.interval, k);
    RoundOnThresholds(l, l1, inputs, settings, k);
    var l3 := AfterDecisions(AfterInjection(l, l1, inputs, settings), r, inputs.env.now);
    ReleaseOnThresholds(l3, inputs.evaluated, k);
  }

  // ---------- levels and severities ----------

  /** A failed cycle reduces the services it had treated. */
  ghost predicate ReducesIn(l: Ledger, inputs: Inputs, settings: Settings, reach: Reach, service: string)
    requires inputs.Ok()
  {
    reach.InGovernance? && service in reach.treated && Reduces(l, inputs, settings, service)
  }

  lemma FailureRatchets(l: Ledger, inputs: Inputs, settings: Settings, reach: Reach, service: string)
    requires inputs.Ok() && LevelsKnown(l)
    ensures var l' := FailedCycle(l, inputs, settings, reach);
            && LevelsKnown(l')
            && Rank(LevelOf(l.levels, service)) <= Rank(LevelOf(l'.levels, service)) < |LADDER|
            && (LevelOf(l'.levels, service) != LevelOf(l.levels, service) ==>
                  ReducesIn(l, inputs, settings, reach, service))
    ensures Reduces(l, inputs, settings, service) ==> NewBreachesOf(l, inputs, settings, service) != {}
  {
    hide RoundOf, AfterTreating, NewBreachesOf, Acts, Rank;
    var l1 := AfterThresholds(l, inputs, settings.interval);
    var l2 := AfterInjection(l, l1, inputs, settings);
    TreatingRatchets(l2, RoundOf(l, l1, inputs, settings), inputs.env.now,
                     if reach.InGovernance? then reach.treated else {}, service);
    if Reduces(l, inputs, settings, service) { ActingNeedsNewBreach(l, inputs, settings, service); }
  }

  lemma FailureKeepsThresholdsHigh(l: Ledger, inputs: Inputs, settings: Settings, reach: Reach)
    requires inputs.Ok() && ThresholdsHigh(l)
    ensures ThresholdsHigh(FailedCycle(l, inputs, settings, reach))
  {
    hide RoundOf, Acts, MigratedState, PhaseState, BreachesIn, Transitions, BackOf, RenamingOf;
    RenameKeepsThresholdsHigh(l, inputs, settings.interval);
    SloTransitions(inputs.evaluated, l.sloStatus);
  }

  // ---------- restarts ----------

  /** Every governed key with a record to clean up still has threshold state. */
  ghost predicate Restorable(l: Ledger) {
    forall k :: k in l.governed && (ThresholdKey(k) in l.decisions || ThresholdKey(k) in l.severities) ==>
                  k in l.thresholds
  }

  /** Restoring keeps what survives exactly then: otherwise the filter on governed keys leaves a
      decision or severity behind without its key. After a complete cycle it always does. */
  lemma RestoreKeepsHeldIff(l: Ledger)
    requires Held(l)
    ensures Held(Restore(GetState(l))) <==> Restorable(l)
    ensures Closed(l) ==> Restorable(l) && Closed(Restore(GetState(l)))
  {
    var l' := Restore(GetState(l));
    forall k
      ensures KeyHeld(l', k) <==>
              (k in l.governed && (ThresholdKey(k) in l.decisions || ThresholdKey(k) in l.severities) ==>
                 k in l.thresholds)
    {
      assert KeyHeld(l, k);
    }
    forall k
      ensures SloHeld(l', k)
    {
      assert SloHeld(l, k);
    }
  }
}
