/** What one measure cycle, a restart and a lost layout do to the governance ledger. */
module GovernanceLaws {
  import opened Wrappers
  import opened Hysteresis
  import opened ThresholdKeys
  import opened Migration
  import opened ThresholdPhase
  import opened Autonomy
  import opened Governance

  predicate IsOpen(s: State, k: Key) { k in s && !s[k].ks.armed }

  /** The three records of threshold key `k` agree, and only open breaches are governed. */
  ghost predicate KeyInSync(l: Ledger, k: Key) {
    && (ThresholdKey(k) in l.decisions <==> k in l.governed)
    && (ThresholdKey(k) in l.severities <==> k in l.governed)
    && (k in l.governed ==> IsOpen(l.thresholds, k))
  }

  ghost predicate InSync(l: Ledger) { forall k :: KeyInSync(l, k) }

  /** Every open breach is governed. */
  ghost predicate AllGoverned(l: Ledger) { forall k :: IsOpen(l.thresholds, k) ==> k in l.governed }

  /** An SLO is decided iff its last evaluated status is a breach. */
  ghost predicate SlosInSync(l: Ledger) {
    && (forall k :: k in l.sloStatus ==> k.SloKey?)
    && (forall k: GovKey :: k.SloKey? ==> (k in l.decisions <==> k in l.sloStatus && l.sloStatus[k] == Breaching))
  }

  // ---------- threshold keys ----------

  /** The key whose record is at `k` after migration. */
  ghost function Origin(s: State, live: Live, k: Key): Key {
    var back := BackOf(s, live);
    if k in back then back[k] else k
  }

  lemma MigrationMovesOpenness(s: State, live: Live, k: Key)
    requires ProperKeys(live)
    ensures IsOpen(MigratedState(s, live), k) <==>
            IsOpen(s, Origin(s, live, k)) && (k in BackOf(s, live) || k !in RenamingOf(s, live))
    ensures k in BackOf(s, live) ==> k !in s && Origin(s, live, k) in s && Origin(s, live, k) !in live
    ensures k in RenamingOf(s, live) ==> k in s && k !in BackOf(s, live)
  {
    var back := BackOf(s, live);
    if k in back {
      assert Pairs(s, live, back[k], k);
      PairFacts(s, live, back[k], k);
      UniqueSource(s, live, back[k], k);
    } else if k in s && Leaves(s, live, k) {
      assert !HasRecord(s, live, k);
    } else if k in s {
      assert HasRecord(s, live, k);
    }
  }

  lemma RenamedPointwise(l: Ledger, inputs: Inputs, interval: real, k: Key)
    requires inputs.Ok()
    ensures var l1 := AfterThresholds(l, inputs, interval);
            var renamed, back := RenamingOf(l.thresholds, inputs.Live()), BackOf(l.thresholds, inputs.Live());
            && (ThresholdKey(k) in l1.decisions <==>
              RenamedAt(l.decisions, renamed, back, l.governed, ThresholdKey(k)).Some?)
            && (ThresholdKey(k) in l1.severities <==>
              RenamedAt(l.severities, renamed, back, l.governed, ThresholdKey(k)).Some?)
            && (k in l1.governed <==> RenamedIn(l.governed, renamed, back, l.governed, k))
  {
    hide MigratedState, PhaseState, RenamingOf, BackOf, EntriesOf;
  }

  lemma RenameKeepsSync(l: Ledger, inputs: Inputs, interval: real, k: Key)
    requires inputs.Ok() && InSync(l)
    ensures var l1 := AfterThresholds(l, inputs, interval);
            && (ThresholdKey(k) in l1.decisions <==> k in l1.governed)
            && (ThresholdKey(k) in l1.severities <==> k in l1.governed)
            && (k in l1.governed ==> IsOpen(MigratedState(l.thresholds, inputs.Live()), k))
            && (AllGoverned(l) && IsOpen(MigratedState(l.thresholds, inputs.Live()), k) ==> k in l1.governed)
  {
    hide MigratedState, AfterThresholds, RenamingOf, BackOf, EntriesOf;
    var s, live := l.thresholds, inputs.Live();
    ServedKeysAreProper(inputs.ms);
    MigrationMovesOpenness(s, live, k);
    RenamedPointwise(l, inputs, interval, k);
    assert KeyInSync(l, k) && KeyInSync(l, Origin(s, live, k));
  }

  lemma PhaseOpenness(l: Ledger, inputs: Inputs, interval: real, k: Key)
    requires inputs.Ok()
    ensures var m := MigratedState(l.thresholds, inputs.Live());
            var t := AfterThresholds(l, inputs, interval).thresholds;
            var breaches := BreachesIn(l, inputs, interval);
            && (IsOpen(t, k) && k !in breaches ==> IsOpen(m, k))
            && (k in breaches ==> IsOpen(t, k) && !IsOpen(m, k))
  {
    hide MigratedState, RenamingOf, BackOf, RenamedStore, RenamedKeys, EntriesOf, Applied;
    var m, live, done := MigratedState(l.thresholds, inputs.Live()), inputs.Live(), DoneIn(l, inputs, interval);
    AppliedIsOneEvent(m, live, StepsIn(l, inputs, interval), inputs.env, k);
    if k in BreachesIn(l, inputs, interval) {
      AcceptedBreachIsDisarmed(m, live, done, inputs.env, k);
    }
  }

  /** Phase 3 decides every new threshold breach and touches no other threshold key that
      is not injected. */
  lemma DecisionsOnThresholds(l: Ledger, r: Round, at: real, k: Key, injected: set<Key>)
    requires ThresholdKey(k) in r.current <==> k in injected
    requires k in injected ==> r.current[ThresholdKey(k)] == Breaching
    requires k in injected ==> ThresholdKey(k) in l.decisions || ThresholdKey(k) in r.news
    ensures ThresholdKey(k) in AfterDecisions(l, r, at).decisions <==> ThresholdKey(k) in l.decisions || k in injected
    ensures AfterDecisions(l, r, at) ==
              l.(decisions := AfterDecisions(l, r, at).decisions, levels := AfterDecisions(l, r, at).levels)
  {
    var g := ThresholdKey(k);
    if k in injected && g !in l.decisions {
      assert g in BreachingOf(r.current, Owner(g));
      assert Acts(l.decisions, r, Owner(g));
    }
  }

  /** One cycle keeps the ledger in step, whatever happens in it and whether or not
      threshold autonomy is on. */
  lemma CycleKeepsSync(l: Ledger, inputs: Inputs, settings: Settings)
    requires inputs.Ok() && InSync(l)
    ensures InSync(CycleOf(l, inputs, settings))
    ensures settings.autonomy && AllGoverned(l) ==> AllGoverned(CycleOf(l, inputs, settings))
  {
    forall k
      ensures KeyInSync(CycleOf(l, inputs, settings), k)
      ensures settings.autonomy && AllGoverned(l) && IsOpen(CycleOf(l, inputs, settings).thresholds, k)
              ==> k in CycleOf(l, inputs, settings).governed
    {
      CycleKeepsKeyInSync(l, inputs, settings, k);
    }
  }

  lemma CycleKeepsKeyInSync(l: Ledger, inputs: Inputs, settings: Settings, k: Key)
    requires inputs.Ok() && InSync(l)
    ensures KeyInSync(CycleOf(l, inputs, settings), k)
    ensures settings.autonomy && AllGoverned(l) && IsOpen(CycleOf(l, inputs, settings).thresholds, k)
            ==> k in CycleOf(l, inputs, settings).governed
  {
    hide AfterThresholds, AfterDecisions, AfterRelease, RoundOf, BreachesIn, InSync, MigratedState;
    var l1 := AfterThresholds(l, inputs, settings.interval);
    var injected := Injected(l1, BreachesIn(l, inputs, settings.interval), settings.autonomy);
    var l2 := AfterInjection(l, l1, inputs, settings);
    var r := RoundOf(l, l1, inputs, settings);
    RenameKeepsSync(l, inputs, settings.interval, k);
    PhaseOpenness(l, inputs, settings.interval, k);
    RoundOnThresholds(l, l1, inputs, settings, k);
    DecisionsOnThresholds(l2, r, inputs.env.now, k, injected);
    ReleaseOnThresholds(AfterDecisions(l2, r, inputs.env.now), inputs.evaluated, k);
  }

  lemma ReleaseOnThresholds(l: Ledger, evaluated: map<GovKey, SloStatus>, k: Key)
    requires forall g :: g in evaluated ==> g.SloKey?
    ensures var l' := AfterRelease(l, evaluated);
            && (ThresholdKey(k) in l'.decisions <==> ThresholdKey(k) in l.decisions && !Released(l, k))
            && (ThresholdKey(k) in l'.severities <==> ThresholdKey(k) in l.severities && !Released(l, k))
            && (k in l'.governed <==> k in l.governed && !Released(l, k))
            && l'.thresholds == l.thresholds
  {
  }

  lemma RoundOnThresholds(l: Ledger, l1: Ledger, inputs: Inputs, settings: Settings, k: Key)
    requires inputs.Ok()
    ensures var breaches := BreachesIn(l, inputs, settings.interval);
            var injected := Injected(l1, breaches, settings.autonomy);
            var r := RoundOf(l, l1, inputs, settings);
            && (ThresholdKey(k) in r.current <==> k in injected)
            && (k in injected ==> r.current[ThresholdKey(k)] == Breaching)
            && (ThresholdKey(k) in r.news <==> k in Counted(breaches, settings.autonomy))
            && (k in injected && k !in breaches ==> ThresholdKey(k) in l1.decisions)
  {
  }

  // ---------- SLO keys ----------

  lemma CycleKeepsSlosInSync(l: Ledger, inputs: Inputs, settings: Settings)
    requires inputs.Ok() && SlosInSync(l)
    ensures SlosInSync(CycleOf(l, inputs, settings))
  {
    forall k: GovKey | k.SloKey?
      ensures var c := CycleOf(l, inputs, settings);
              k in c.decisions <==> k in c.sloStatus && c.sloStatus[k] == Breaching
    {
      SloAfterCycle(l, inputs, settings, k);
    }
  }

  lemma ReleaseOnSlos(l: Ledger, evaluated: map<GovKey, SloStatus>, k: GovKey)
    requires k.SloKey?
    ensures var c := AfterRelease(l, evaluated);
            && (k in c.decisions <==> k in l.decisions && !Governance.Recovered(evaluated, k))
            && Lookup(c.sloStatus, k) == (if k in evaluated then Some(evaluated[k]) else Lookup(l.sloStatus, k))
  {
  }

  lemma RoundOnSlos(l: Ledger, inputs: Inputs, settings: Settings, k: GovKey)
    requires inputs.Ok() && k.SloKey?
    ensures var l1 := AfterThresholds(l, inputs, settings.interval);
            var l2, r := AfterInjection(l, l1, inputs, settings), RoundOf(l, l1, inputs, settings);
            && (k in l2.decisions <==> k in l.decisions) && l2.sloStatus == l.sloStatus
            && Lookup(r.current, k) == Lookup(inputs.evaluated, k)
            && (k in r.news <==> k in Transitions(inputs.evaluated, l.sloStatus))
  {
    hide MigratedState, BreachesIn, PhaseState, RenamingOf, BackOf;
  }

  lemma DecidedWhenNew(l: Ledger, r: Round, k: GovKey)
    requires Lookup(r.current, k) == Some(Breaching) && k in r.news && k !in l.decisions
    ensures Decides(l, r, k)
  {
    assert k in BreachingOf(r.current, Owner(k));
  }

  /** What a complete cycle makes of an SLO: an evaluation puts its decision and status back in
      step, whatever failed before. */
  lemma SloAfterCycle(l: Ledger, inputs: Inputs, settings: Settings, k: GovKey)
    requires inputs.Ok() && k.SloKey? && (Lookup(l.sloStatus, k) == Some(Breaching) ==> k in l.decisions)
    ensures var c := CycleOf(l, inputs, settings);
            if k in inputs.evaluated then Lookup(c.sloStatus, k) == Some(inputs.evaluated[k]) &&
                                          (k in c.decisions <==> inputs.evaluated[k] == Breaching)
            else Lookup(c.sloStatus, k) == Lookup(l.sloStatus, k) && (k in c.decisions <==> k in l.decisions)
  {
    hide AfterThresholds, AfterInjection, RoundOf, AfterRelease, Acts;
    var l1 := AfterThresholds(l, inputs, settings.interval);
    var l2, r := AfterInjection(l, l1, inputs, settings), RoundOf(l, l1, inputs, settings);
    RoundOnSlos(l, inputs, settings, k);
    var l3 := AfterDecisions(l2, r, inputs.env.now);
    ReleaseOnSlos(l3, inputs.evaluated, k);
    if Lookup(inputs.evaluated, k) == Some(Breaching) && k !in l.decisions {
      DecidedWhenNew(l2, r, k);
    }
  }

  /** A decision stands until it is cleared: later cycles do not touch it. */
  lemma DecisionsStand(l: Ledger, inputs: Inputs, settings: Settings, k: GovKey)
    requires inputs.Ok() && k.SloKey? && k in l.decisions
    ensures var c := CycleOf(l, inputs, settings);
            k in c.decisions ==> c.decisions[k] == l.decisions[k]
  {
    hide AfterInjection, RoundOf, Acts, Decides, MigratedState, PhaseState, RenamingOf, BackOf;
    RoundLeavesDecisions(l, inputs, settings, k);
  }

  lemma RoundLeavesDecisions(l: Ledger, inputs: Inputs, settings: Settings, k: GovKey)
    requires inputs.Ok() && k.SloKey?
    ensures Lookup(AfterInjection(l, AfterThresholds(l, inputs, settings.interval), inputs, settings).decisions, k) ==
              Lookup(l.decisions, k)
  {
    hide MigratedState, BreachesIn, PhaseState, RenamingOf, BackOf;
  }

  // ---------- severities ----------

  /** Threshold breaches count as high. */
  ghost predicate ThresholdsHigh(l: Ledger) {
    forall k :: ThresholdKey(k) in l.severities ==> l.severities[ThresholdKey(k)] == High
  }

  lemma CycleKeepsThresholdsHigh(l: Ledger, inputs: Inputs, settings: Settings)
    requires inputs.Ok() && ThresholdsHigh(l)
    ensures ThresholdsHigh(CycleOf(l, inputs, settings))
  {
    hide RoundOf, Acts, MigratedState, PhaseState, BreachesIn, Transitions, BackOf, RenamingOf;
    var l1 := AfterThresholds(l, inputs, settings.interval);
    RenameKeepsThresholdsHigh(l, inputs, settings.interval);
    SloTransitions(inputs.evaluated, l.sloStatus);
  }

  lemma RenameKeepsThresholdsHigh(l: Ledger, inputs: Inputs, interval: real)
    requires inputs.Ok() && ThresholdsHigh(l)
    ensures ThresholdsHigh(AfterThresholds(l, inputs, interval))
  {
    hide MigratedState, PhaseState, BackOf, RenamingOf;
  }

  lemma SloTransitions(current: map<GovKey, SloStatus>, previous: map<GovKey, SloStatus>)
    ensures Transitions(current, previous) <= current.Keys
  {
  }

  // ---------- autonomy ----------

  ghost predicate LevelsKnown(l: Ledger) { forall s :: s in l.levels ==> l.levels[s] in LADDER }

  /** Services whose autonomy phase 3 reduces in a cycle. */
  ghost predicate Reduces(l: Ledger, inputs: Inputs, settings: Settings, service: string)
    requires inputs.Ok()
  {
    var l1 := AfterThresholds(l, inputs, settings.interval);
    Acts(AfterInjection(l, l1, inputs, settings).decisions, RoundOf(l, l1, inputs, settings), service)
  }

  /** New breaches of a service in a cycle: SLO transitions plus, with autonomy on,
      threshold breaches core accepted. */
  ghost function NewBreachesOf(l: Ledger, inputs: Inputs, settings: Settings, service: string): set<GovKey>
    requires inputs.Ok()
  {
    var breaches := Counted(BreachesIn(l, inputs, settings.interval), settings.autonomy);
    set k | k in Transitions(inputs.evaluated, l.sloStatus) + AsGov(breaches) && Owner(k) == service
  }

  lemma TreatingRatchets(l: Ledger, r: Round, at: real, treated: set<string>, service: string)
    requires LevelsKnown(l)
    ensures var l' := AfterTreating(l, r, at, treated);
            && LevelsKnown(l')
            && Rank(LevelOf(l.levels, service)) <= Rank(LevelOf(l'.levels, service)) < |LADDER|
            && (LevelOf(l'.levels, service) != LevelOf(l.levels, service) ==>
                  Acts(l.decisions, r, service) && service in treated)
  {
    if Acts(l.decisions, r, service) {
      var k :| k in BreachingOf(r.current, service) && k in r.news;
      assert service in Owners(r.current);
    }
  }

  /** A reduction bites: the service moves down the ladder unless it is at the bottom, or
      at advisor with several breaches none of them critical. */
  lemma ReductionBites(l: Ledger, r: Round, at: real, service: string)
    requires LevelsKnown(l) && Acts(l.decisions, r, service)
    ensures var was, now := LevelOf(l.levels, service), LevelOf(AfterDecisions(l, r, at).levels, service);
            && (Rank(was) < Rank(now) || was == "observer" ||
              (was == "advisor" && |BreachingOf(r.current, service)| > 1))
            && (forall k :: k in BreachingOf(r.current, service) && Lookup(l.severities, k) == Some(Critical) ==>
              now == "observer")
  {
    hide ReduceAutonomy, GovernanceSteps, Acts, AfterTreating, LevelsKnown;
    assert Acts(l.decisions, r, service);
    var breaching := BreachingOf(r.current, service);
    var k := ActingKey(l.decisions, r, service);
    LevelAfterActing(l, r, at, service, k);
    var was := LevelOf(l.levels, service);
    GovernanceRule(l.severities, breaching, k, was);
    if breaching == {k} { assert |breaching| == 1; } else { assert |breaching - {k}| > 0; }
    forall c | c in breaching { GovernanceRule(l.severities, breaching, c, was); }
  }

  lemma ActingKey(decisions: map<GovKey, Decision>, r: Round, service: string) returns (k: GovKey)
    requires Acts(decisions, r, service)
    ensures k in BreachingOf(r.current, service)
  {
    k :| k in BreachingOf(r.current, service) && k in r.news;
  }

  lemma LevelAfterActing(l: Ledger, r: Round, at: real, service: string, k: GovKey)
    requires LevelsKnown(l) && Acts(l.decisions, r, service) && k in BreachingOf(r.current, service)
    ensures LevelOf(l.levels, service) in LADDER
    ensures LevelOf(AfterDecisions(l, r, at).levels, service) ==
            ReduceAutonomy(LevelOf(l.levels, service), GovernanceSteps(l.severities, BreachingOf(r.current, service)))
  {
    assert service in Owners(r.current);
  }

  lemma ActingNeedsNewBreach(l: Ledger, inputs: Inputs, settings: Settings, service: string)
    requires inputs.Ok() && Reduces(l, inputs, settings, service)
    ensures NewBreachesOf(l, inputs, settings, service) != {}
  {
    var r := RoundOf(l, AfterThresholds(l, inputs, settings.interval), inputs, settings);
    var k :| k in BreachingOf(r.current, service) && k in r.news;
    assert k in NewBreachesOf(l, inputs, settings, service);
  }

  /** The ratchet: a service's level never goes up, changes only in a reduction, and a
      reduction needs a new breach of that service. */
  lemma CycleRatchets(l: Ledger, inputs: Inputs, settings: Settings, service: string)
    requires inputs.Ok() && LevelsKnown(l)
    ensures LevelsKnown(CycleOf(l, inputs, settings))
    ensures Rank(LevelOf(l.levels, service)) <= Rank(LevelOf(CycleOf(l, inputs, settings).levels, service)) < |LADDER|
    ensures LevelOf(CycleOf(l, inputs, settings).levels, service) != LevelOf(l.levels, service)
            ==> Reduces(l, inputs, settings, service)
    ensures Reduces(l, inputs, settings, service) ==> NewBreachesOf(l, inputs, settings, service) != {}
  {
    hide RoundOf, AfterTreating, NewBreachesOf, Acts, Rank;
    var l1 := AfterThresholds(l, inputs, settings.interval);
    var l2 := AfterInjection(l, l1, inputs, settings);
    var r := RoundOf(l, l1, inputs, settings);
    TreatingRatchets(l2, r, inputs.env.now, Owners(r.current), service);
    if Reduces(l, inputs, settings, service) {
      ActingNeedsNewBreach(l, inputs, settings, service);
    }
  }

  // ---------- persistence ----------

  const STATE_VERSION := 1

  /** The persisted component state; `version` is None when written before the marker. */
  datatype Persisted = Persisted(ledger: Ledger, version: Option<int>)

  function GetState(l: Ledger): Persisted { Persisted(l, Some(STATE_VERSION)) }

  /** Governed keys without restored threshold state are dropped; an unknown layout drops
      all threshold state. */
  function Restore(p: Persisted): Ledger {
    if p.version == None || p.version == Some(STATE_VERSION)
    then p.ledger.(governed := set k | k in p.ledger.governed && k in p.ledger.thresholds)
    else p.ledger.(thresholds := map[], governed := {})
  }

  /** What a restart restores: everything but governed keys without threshold state; from an
      unknown layout everything but the threshold state and what is governed. */
  lemma RestoreMeans(p: Persisted, k: Key)
    ensures var l, s := Restore(p), p.ledger;
            var known := p.version == None || p.version == Some(1);
            && l.sloStatus == s.sloStatus && l.decisions == s.decisions && l.severities == s.severities
            && l.levels == s.levels && l.lastRun == s.lastRun
            && l.thresholds == (if known then s.thresholds else map[])
            && (k in l.governed <==> known && k in s.governed && k in s.thresholds)
  {
  }

  /** A restart loses nothing. */
  lemma RestoreLosesNothing(l: Ledger)
    requires InSync(l)
    ensures Restore(GetState(l)) == l
  {
    forall k | k in l.governed
      ensures k in l.thresholds
    {
      assert KeyInSync(l, k);
    }
  }

  /** Discarding an unknown layout keeps the ledger in step exactly when no breach was
      open in it: otherwise the decisions of the dropped keys stay behind. */
  lemma UnknownVersionKeepsSyncIff(l: Ledger, version: int)
    requires InSync(l) && version != STATE_VERSION
    ensures InSync(Restore(Persisted(l, Some(version)))) <==> l.governed == {}
  {
    var l' := Restore(Persisted(l, Some(version)));
    if k :| k in l.governed {
      assert KeyInSync(l, k) && !KeyInSync(l', k);
    } else {
      forall k
        ensures KeyInSync(l', k)
      {
        assert KeyInSync(l, k);
      }
    }
  }
}
