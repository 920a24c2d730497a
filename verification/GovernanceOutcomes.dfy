/** What one measure cycle does to statuses, decisions, severities, governed keys and levels, said
    from the ledger before it and what was evaluated alone. */
module GovernanceOutcomes {
  import opened Wrappers
  import opened Hysteresis
  import opened ThresholdKeys
  import opened Migration
  import opened ThresholdPhase
  import opened Autonomy
  import opened Governance
  import opened GovernanceLaws

  /** Threshold key `k` was open when the threshold run of the cycle began. */
  ghost predicate WasOpen(l: Ledger, inputs: Inputs, k: Key) { IsOpen(MigratedState(l.thresholds, inputs.Live()), k) }

  /** Threshold key `k` was governed, under the key it had. */
  ghost predicate WasGoverned(l: Ledger, inputs: Inputs, k: Key) {
    Origin(l.thresholds, inputs.Live(), k) in l.governed
  }

  /** SLO `k` evaluated to a breach, and was not stored as breaching. */
  predicate NewlyBreaching(l: Ledger, inputs: Inputs, k: GovKey) {
    Lookup(inputs.evaluated, k) == Some(Breaching) && Lookup(l.sloStatus, k) != Some(Breaching)
  }

  // ---------- services ----------

  /** A breach counts against what stands before the first colon of its service. */
  lemma {:induction false} FirstFieldMeans(s: string)
    ensures ':' !in FirstField(s) && FirstField(s) <= s && (|FirstField(s)| == |s| || s[|FirstField(s)|] == ':')
  {
    if s != "" && s[0] != ':' {
      FirstFieldMeans(s[1..]);
      assert s == [s[0]] + s[1..];
    }
  }

  lemma OwnerMeans(k: GovKey)
    ensures var service := if k.SloKey? then k.service else k.key.base.service;
            && Owner(k) <= service && ':' !in Owner(k)
            && (Owner(k) == service || service[|Owner(k)|] == ':')
  {
    FirstFieldMeans(if k.SloKey? then k.service else k.key.base.service);
  }

  // ---------- threshold keys ----------

  /** Phase 2b on one threshold key. */
  lemma InjectedIff(l: Ledger, inputs: Inputs, settings: Settings, k: Key)
    requires inputs.Ok() && InSync(l)
    ensures var l1 := AfterThresholds(l, inputs, settings.interval);
            var breaches := BreachesIn(l, inputs, settings.interval);
            && (k in breaches <==> IsOpen(l1.thresholds, k) && !WasOpen(l, inputs, k))
            && (k in l1.governed ==> WasOpen(l, inputs, k))
            && (k in Injected(l1, breaches, settings.autonomy) <==>
                  settings.autonomy && IsOpen(l1.thresholds, k) && (k in l1.governed || k in breaches))
  {
    hide AfterThresholds, BreachesIn, InSync, MigratedState;
    RenameKeepsSync(l, inputs, settings.interval, k);
    PhaseOpenness(l, inputs, settings.interval, k);
  }

  lemma RenamedGoverned(l: Ledger, inputs: Inputs, interval: real, k: Key)
    requires inputs.Ok() && InSync(l) && WasOpen(l, inputs, k)
    ensures k in AfterThresholds(l, inputs, interval).governed <==> WasGoverned(l, inputs, k)
  {
    hide AfterThresholds, MigratedState, RenamingOf, BackOf, EntriesOf;
    ServedKeysAreProper(inputs.ms);
    MigrationMovesOpenness(l.thresholds, inputs.Live(), k);
    RenamedPointwise(l, inputs, interval, k);
    assert KeyInSync(l, k) && KeyInSync(l, Origin(l.thresholds, inputs.Live(), k));
  }

  /** MAIN: after a cycle a threshold key is governed iff its breach is open and it either was
      governed, if its breach was open before, or autonomy is on, if it is new. With autonomy
      off nothing is gained beyond the rename. */
  lemma GovernedIff(l: Ledger, inputs: Inputs, settings: Settings, k: Key)
    requires inputs.Ok() && InSync(l)
    ensures var c := CycleOf(l, inputs, settings);
            k in c.governed <==>
              IsOpen(c.thresholds, k) && if WasOpen(l, inputs, k) then WasGoverned(l, inputs, k) else settings.autonomy
  {
    hide AfterThresholds, AfterDecisions, AfterRelease, RoundOf, BreachesIn, InSync, MigratedState, Injected;
    var l1 := AfterThresholds(l, inputs, settings.interval);
    var l2 := AfterInjection(l, l1, inputs, settings);
    InjectedIff(l, inputs, settings, k);
    if WasOpen(l, inputs, k) { RenamedGoverned(l, inputs, settings.interval, k); }
    GovernedAfterCycle(l, inputs, settings, k);
  }

  lemma GovernedAfterCycle(l: Ledger, inputs: Inputs, settings: Settings, k: Key)
    requires inputs.Ok()
    ensures var c, l1 := CycleOf(l, inputs, settings), AfterThresholds(l, inputs, settings.interval);
            && c.thresholds == l1.thresholds
            && (k in c.governed <==>
                  IsOpen(l1.thresholds, k) &&
                  (k in l1.governed || k in Injected(l1, BreachesIn(l, inputs, settings.interval), settings.autonomy)))
  {
    hide AfterThresholds, RoundOf, BreachesIn, MigratedState, Injected;
    var l1 := AfterThresholds(l, inputs, settings.interval);
    var l3 := AfterDecisions(AfterInjection(l, l1, inputs, settings), RoundOf(l, l1, inputs, settings), inputs.env.now);
    ReleaseOnThresholds(l3, inputs.evaluated, k);
  }

  // ---------- SLO keys ----------

  /** MAIN: what a cycle makes of an SLO. */
  lemma SloOutcome(l: Ledger, inputs: Inputs, settings: Settings, k: GovKey)
    requires inputs.Ok() && k.SloKey? && SlosInSync(l)
    ensures var c := CycleOf(l, inputs, settings);
            && Lookup(c.sloStatus, k) ==
                 (if k in inputs.evaluated then Some(inputs.evaluated[k]) else Lookup(l.sloStatus, k))
            && Lookup(c.decisions, k) ==
                 (if Lookup(inputs.evaluated, k) == Some(Healthy) then None
                  else if NewlyBreaching(l, inputs, k) then Some(Decision(inputs.env.now, "reduced"))
                  else Lookup(l.decisions, k))
            && Lookup(c.severities, k) ==
                 (if NewlyBreaching(l, inputs, k) then Some(inputs.classified[k])
                  else if Lookup(inputs.evaluated, k) == Some(Healthy) && k in l.decisions then None
                  else Lookup(l.severities, k))
  {
    hide AfterThresholds, AfterInjection, RoundOf, AfterRelease, Acts, NextLevel;
    var l1 := AfterThresholds(l, inputs, settings.interval);
    var l2, r := AfterInjection(l, l1, inputs, settings), RoundOf(l, l1, inputs, settings);
    RoundOnSlos(l, inputs, settings, k);
    SloValues(l, inputs, settings, k);
    ReleaseSlo(AfterDecisions(l2, r, inputs.env.now), inputs.evaluated, k);
    if NewlyBreaching(l, inputs, k) { DecidedWhenNew(l2, r, k); }
  }

  lemma SloValues(l: Ledger, inputs: Inputs, settings: Settings, k: GovKey)
    requires inputs.Ok() && k.SloKey?
    ensures var l2 := AfterInjection(l, AfterThresholds(l, inputs, settings.interval), inputs, settings);
            && Lookup(l2.decisions, k) == Lookup(l.decisions, k) && l2.sloStatus == l.sloStatus
            && Lookup(l2.severities, k) ==
                 if NewlyBreaching(l, inputs, k) then Some(inputs.classified[k]) else Lookup(l.severities, k)
  {
    hide MigratedState, BreachesIn, PhaseState, RenamingOf, BackOf;
  }

  lemma ReleaseSlo(l: Ledger, evaluated: map<GovKey, SloStatus>, k: GovKey)
    requires k.SloKey?
    ensures var c := AfterRelease(l, evaluated);
            var clears := k in l.decisions && Lookup(evaluated, k) == Some(Healthy);
            && Lookup(c.decisions, k) == (if clears then None else Lookup(l.decisions, k))
            && Lookup(c.severities, k) == (if clears then None else Lookup(l.severities, k))
            && Lookup(c.sloStatus, k) == (if k in evaluated then Some(evaluated[k]) else Lookup(l.sloStatus, k))
  {
  }

  /** And what a failed cycle leaves of one: its severity if its verdict was due, its decision if
      its service had been treated, and the status it had. */
  lemma SloAfterFailure(l: Ledger, inputs: Inputs, settings: Settings, reach: Reach, k: GovKey)
    requires inputs.Ok() && k.SloKey? && SlosInSync(l)
    ensures var f := FailedCycle(l, inputs, settings, reach);
            var reached := if reach.InVerdicts? then k in reach.sent else true;
            && f.sloStatus == l.sloStatus
            && Lookup(f.severities, k) ==
                 (if NewlyBreaching(l, inputs, k) && reached then Some(inputs.classified[k])
                  else Lookup(l.severities, k))
            && Lookup(f.decisions, k) ==
                 (if NewlyBreaching(l, inputs, k) && reach.InGovernance? && Owner(k) in reach.treated
                  then Some(Decision(inputs.env.now, "reduced")) else Lookup(l.decisions, k))
  {
    hide AfterThresholds, AfterInjection, RoundOf, Acts, NextLevel;
    SloThroughThresholds(l, inputs, settings.interval, k);
    match reach {
      case InVerdicts(_) =>
      case InGovernance(_) =>
        var l1 := AfterThresholds(l, inputs, settings.interval);
        RoundOnSlos(l, inputs, settings, k);
        SloValues(l, inputs, settings, k);
        if NewlyBreaching(l, inputs, k) {
          DecidedWhenNew(AfterInjection(l, l1, inputs, settings), RoundOf(l, l1, inputs, settings), k);
        }
    }
  }

  lemma SloThroughThresholds(l: Ledger, inputs: Inputs, interval: real, k: GovKey)
    requires inputs.Ok() && k.SloKey?
    ensures var l1 := AfterThresholds(l, inputs, interval);
            && Lookup(l1.decisions, k) == Lookup(l.decisions, k) && Lookup(l1.severities, k) == Lookup(l.severities, k)
            && l1.sloStatus == l.sloStatus
  {
    hide MigratedState, PhaseState, RenamingOf, BackOf;
  }

  // ---------- decisions and severities of threshold keys ----------

  /** What a store held at threshold key `k`, under the key it had. */
  ghost function Carried<V>(l: Ledger, inputs: Inputs, store: map<GovKey, V>, k: Key): Option<V> {
    Lookup(store, ThresholdKey(Origin(l.thresholds, inputs.Live(), k)))
  }

  lemma RenamedValue<V>(l: Ledger, inputs: Inputs, store: map<GovKey, V>, k: Key)
    requires inputs.Ok() && InSync(l) && WasOpen(l, inputs, k) && WasGoverned(l, inputs, k)
    requires forall g :: ThresholdKey(g) in store <==> g in l.governed
    ensures var renamed, back := RenamingOf(l.thresholds, inputs.Live()), BackOf(l.thresholds, inputs.Live());
            Lookup(RenamedStore(store, renamed, back, l.governed), ThresholdKey(k)) == Carried(l, inputs, store, k)
  {
    hide MigratedState, RenamingOf, BackOf, EntriesOf, InSync;
    ServedKeysAreProper(inputs.ms);
    MigrationMovesOpenness(l.thresholds, inputs.Live(), k);
  }

  lemma RenamedValues(l: Ledger, inputs: Inputs, interval: real, k: Key)
    requires inputs.Ok() && InSync(l) && WasOpen(l, inputs, k) && WasGoverned(l, inputs, k)
    ensures var l1 := AfterThresholds(l, inputs, interval);
            && Lookup(l1.decisions, ThresholdKey(k)) == Carried(l, inputs, l.decisions, k)
            && Lookup(l1.severities, ThresholdKey(k)) == Carried(l, inputs, l.severities, k)
  {
    hide RenamedStore, MigratedState, PhaseState, EntriesOf, RenamingOf, BackOf, RenamedKeys, Origin;
    forall g
      ensures ThresholdKey(g) in l.decisions <==> g in l.governed
      ensures ThresholdKey(g) in l.severities <==> g in l.governed
    {
      assert KeyInSync(l, g);
    }
    RenamedValue(l, inputs, l.decisions, k);
    RenamedValue(l, inputs, l.severities, k);
  }

  /** A governed key keeps its decision and severity through a cycle; a new one is decided in it,
      as high. No other threshold key has either. */
  lemma ThresholdOutcome(l: Ledger, inputs: Inputs, settings: Settings, k: Key)
    requires inputs.Ok() && InSync(l)
    ensures var c, g := CycleOf(l, inputs, settings), ThresholdKey(k);
            && Lookup(c.decisions, g) ==
                 (if k !in c.governed then None
                  else if WasOpen(l, inputs, k) then Carried(l, inputs, l.decisions, k)
                  else Some(Decision(inputs.env.now, "reduced")))
            && Lookup(c.severities, g) ==
                 (if k !in c.governed then None
                  else if WasOpen(l, inputs, k) then Carried(l, inputs, l.severities, k)
                  else Some(High))
  {
    hide AfterThresholds, AfterInjection, AfterDecisions, AfterRelease, RoundOf, BreachesIn, InSync, MigratedState,
      Carried, WasOpen, WasGoverned;
    CycleKeepsSync(l, inputs, settings);
    assert KeyInSync(CycleOf(l, inputs, settings), k) by { SyncAt(CycleOf(l, inputs, settings), k); }
    if k in CycleOf(l, inputs, settings).governed {
      GovernedIff(l, inputs, settings, k);
      GovernedValues(l, inputs, settings, k);
      if WasOpen(l, inputs, k) { RenamedValues(l, inputs, settings.interval, k); }
    }
  }

  lemma SyncAt(l: Ledger, k: Key)
    requires InSync(l)
    ensures KeyInSync(l, k)
  {
  }

  /** From the rename on, the values of a governed key change only if its breach is new. */
  lemma GovernedValues(l: Ledger, inputs: Inputs, settings: Settings, k: Key)
    requires inputs.Ok() && InSync(l) && k in CycleOf(l, inputs, settings).governed
    ensures var c, l1 := CycleOf(l, inputs, settings), AfterThresholds(l, inputs, settings.interval);
            var g := ThresholdKey(k);
            && Lookup(c.decisions, g) ==
                 (if WasOpen(l, inputs, k) then Lookup(l1.decisions, g) else Some(Decision(inputs.env.now, "reduced")))
            && Lookup(c.severities, g) ==
                 (if WasOpen(l, inputs, k) then Lookup(l1.severities, g) else Some(High))
  {
    hide AfterThresholds, RoundOf, BreachesIn, InSync, MigratedState, Acts, NextLevel;
    var l1 := AfterThresholds(l, inputs, settings.interval);
    var l2, r := AfterInjection(l, l1, inputs, settings), RoundOf(l, l1, inputs, settings);
    var g := ThresholdKey(k);
    InjectedIff(l, inputs, settings, k);
    RenameKeepsSync(l, inputs, settings.interval, k);
    GovernedAfterCycle(l, inputs, settings, k);
    RoundOnThresholds(l, l1, inputs, settings, k);
    SloTransitions(inputs.evaluated, l.sloStatus);
    ReleaseOnThresholds(AfterDecisions(l2, r, inputs.env.now), inputs.evaluated, k);
    if !WasOpen(l, inputs, k) { NewKeyDecided(l2, r, g); }
  }

  lemma NewKeyDecided(l: Ledger, r: Round, g: GovKey)
    requires g in r.news && Lookup(r.current, g) == Some(Breaching) && g !in l.decisions
    ensures Decides(l, r, g)
  {
    assert g in BreachingOf(r.current, Owner(g));
  }

  // ---------- levels ----------

  /** The breaches that count for a service: its SLOs that evaluated to a breach and, with
      autonomy on, its governed threshold keys. */
  ghost function CountingOf(inputs: Inputs, settings: Settings, after: Ledger, service: string): set<GovKey> {
    (set g | g in inputs.evaluated && inputs.evaluated[g] == Breaching && Owner(g) == service) +
    (set k | k in after.governed && settings.autonomy && Owner(ThresholdKey(k)) == service :: ThresholdKey(k))
  }

  /** Breach `g`, which counts, is new in this cycle. */
  ghost predicate IsNew(l: Ledger, inputs: Inputs, g: GovKey) {
    if g.SloKey? then NewlyBreaching(l, inputs, g) else !WasOpen(l, inputs, g.key)
  }

  ghost predicate AnyNew(l: Ledger, inputs: Inputs, counting: set<GovKey>) {
    exists g :: g in counting && IsNew(l, inputs, g)
  }

  /** `service` has a level of its own, or the one services start on. */
  function LevelIn(l: Ledger, service: string): string {
    if service in l.levels then l.levels[service] else "fully_autonomous"
  }

  lemma CountingIsBreaching(l: Ledger, inputs: Inputs, settings: Settings, service: string)
    requires inputs.Ok() && InSync(l)
    ensures var l1 := AfterThresholds(l, inputs, settings.interval);
            BreachingOf(RoundOf(l, l1, inputs, settings).current, service) ==
            CountingOf(inputs, settings, CycleOf(l, inputs, settings), service)
  {
    hide CycleOf, RoundOf, AfterThresholds;
    var l1 := AfterThresholds(l, inputs, settings.interval);
    var r, c := RoundOf(l, l1, inputs, settings), CycleOf(l, inputs, settings);
    forall g
      ensures g in BreachingOf(r.current, service) <==> g in CountingOf(inputs, settings, c, service)
    {
      if g.SloKey? { RoundOnSlos(l, inputs, settings, g); } else { CountingThreshold(l, inputs, settings, g.key); }
    }
  }

  lemma CountingThreshold(l: Ledger, inputs: Inputs, settings: Settings, k: Key)
    requires inputs.Ok() && InSync(l)
    ensures var l1 := AfterThresholds(l, inputs, settings.interval);
            var r := RoundOf(l, l1, inputs, settings);
            && (Lookup(r.current, ThresholdKey(k)) == Some(Breaching) <==>
                  settings.autonomy && k in CycleOf(l, inputs, settings).governed)
            && (settings.autonomy && k in CycleOf(l, inputs, settings).governed ==>
                  (ThresholdKey(k) in r.news <==> !WasOpen(l, inputs, k)))
            && ThresholdKey(k) !in inputs.evaluated
  {
    hide AfterThresholds, RoundOf, BreachesIn, InSync, MigratedState, Injected, AfterInjection, AfterDecisions,
      AfterRelease;
    var l1 := AfterThresholds(l, inputs, settings.interval);
    InjectedIff(l, inputs, settings, k);
    GovernedAfterCycle(l, inputs, settings, k);
    RoundOnThresholds(l, l1, inputs, settings, k);
  }

  /** MAIN: a cycle moves a service exactly if one of the breaches that count for it is new, and
      then to where the rule sends it for all of them, by the severities they end up with. */
  lemma LevelOutcome(l: Ledger, inputs: Inputs, settings: Settings, service: string)
    requires inputs.Ok() && InSync(l) && SlosInSync(l)
    ensures var c := CycleOf(l, inputs, settings);
            var counting := CountingOf(inputs, settings, c, service);
            LevelIn(c, service) ==
            if AnyNew(l, inputs, counting) then RuleLevel(LevelIn(l, service), counting, c.severities)
            else LevelIn(l, service)
  {
    hide AfterThresholds, RoundOf, InSync, SlosInSync, GovernanceSteps, RuleLevel, BreachingOf, CountingOf, Acts, IsNew,
      AfterInjection;
    var c, l1 := CycleOf(l, inputs, settings), AfterThresholds(l, inputs, settings.interval);
    var l2, r := AfterInjection(l, l1, inputs, settings), RoundOf(l, l1, inputs, settings);
    var counting := CountingOf(inputs, settings, c, service);
    CountingIsBreaching(l, inputs, settings, service);
    ActsIffNew(l, inputs, settings, service);
    assert l2.levels == l.levels by { LevelsUntouched(l, inputs, settings); }
    if AnyNew(l, inputs, counting) {
      CountingSeverities(l, inputs, settings, service);
      GovernanceIsRule(l2.severities, counting, LevelIn(l, service));
      SameRule(LevelIn(l, service), counting, l2.severities, c.severities);
      TreatedLevel(l2, r, inputs.env.now, service);
    }
  }

  lemma TreatedLevel(l: Ledger, r: Round, at: real, service: string)
    requires Acts(l.decisions, r, service)
    ensures BreachingOf(r.current, service) != {} && service in AfterDecisions(l, r, at).levels
    ensures AfterDecisions(l, r, at).levels[service] ==
            ReduceAutonomy(LevelIn(l, service), GovernanceSteps(l.severities, BreachingOf(r.current, service)))
  {
    var k :| k in BreachingOf(r.current, service) && k in r.news;
    assert service in Owners(r.current);
  }

  lemma LevelsUntouched(l: Ledger, inputs: Inputs, settings: Settings)
    requires inputs.Ok()
    ensures AfterInjection(l, AfterThresholds(l, inputs, settings.interval), inputs, settings).levels == l.levels
  {
    hide MigratedState, PhaseState, BreachesIn, RenamedStore, RenamedKeys;
  }

  lemma SameRule(level: string, breaching: set<GovKey>, a: map<GovKey, Severity>, b: map<GovKey, Severity>)
    requires forall g :: g in breaching ==> Lookup(a, g) == Lookup(b, g)
    ensures RuleLevel(level, breaching, a) == RuleLevel(level, breaching, b)
  {
    assert forall g :: g in breaching ==> (g in a <==> g in b) && (g in a ==> a[g] == b[g]) by {
      forall g | g in breaching
        ensures (g in a <==> g in b) && (g in a ==> a[g] == b[g])
      {
        assert Lookup(a, g) == Lookup(b, g);
      }
    }
  }

  /** Phase 3 acts for a service exactly if a breach that counts for it is new: a new one is
      never decided already. */
  lemma ActsIffNew(l: Ledger, inputs: Inputs, settings: Settings, service: string)
    requires inputs.Ok() && InSync(l) && SlosInSync(l)
    ensures var l1 := AfterThresholds(l, inputs, settings.interval);
            var counting := CountingOf(inputs, settings, CycleOf(l, inputs, settings), service);
            Acts(AfterInjection(l, l1, inputs, settings).decisions, RoundOf(l, l1, inputs, settings), service) <==>
            AnyNew(l, inputs, counting)
  {
    hide CycleOf, RoundOf, AfterThresholds, AfterInjection, InSync, SlosInSync, BreachingOf, CountingOf, IsNew;
    var l1 := AfterThresholds(l, inputs, settings.interval);
    var r, l2 := RoundOf(l, l1, inputs, settings), AfterInjection(l, l1, inputs, settings);
    var counting := CountingOf(inputs, settings, CycleOf(l, inputs, settings), service);
    CountingIsBreaching(l, inputs, settings, service);
    forall g | g in counting
      ensures g in r.news <==> IsNew(l, inputs, g)
      ensures g in r.news ==> g !in l2.decisions
    {
      NewsIsNew(l, inputs, settings, service, g);
    }
  }

  lemma NewsIsNew(l: Ledger, inputs: Inputs, settings: Settings, service: string, g: GovKey)
    requires inputs.Ok() && InSync(l) && SlosInSync(l)
    requires g in CountingOf(inputs, settings, CycleOf(l, inputs, settings), service)
    ensures var l1 := AfterThresholds(l, inputs, settings.interval);
            var r, l2 := RoundOf(l, l1, inputs, settings), AfterInjection(l, l1, inputs, settings);
            (g in r.news <==> IsNew(l, inputs, g)) && (g in r.news ==> g !in l2.decisions)
  {
    hide CycleOf, RoundOf, AfterThresholds, InSync, MigratedState;
    if g.SloKey? {
      RoundOnSlos(l, inputs, settings, g);
    } else {
      CountingThreshold(l, inputs, settings, g.key);
      InjectedIff(l, inputs, settings, g.key);
      RenameKeepsSync(l, inputs, settings.interval, g.key);
    }
  }

  /** The severities phase 3 reads of the breaches that count are those the cycle leaves. */
  lemma CountingSeverities(l: Ledger, inputs: Inputs, settings: Settings, service: string)
    requires inputs.Ok() && InSync(l) && SlosInSync(l)
    ensures var c := CycleOf(l, inputs, settings);
            var l2 := AfterInjection(l, AfterThresholds(l, inputs, settings.interval), inputs, settings);
            forall g :: g in CountingOf(inputs, settings, c, service) ==>
              Lookup(l2.severities, g) == Lookup(c.severities, g)
  {
    hide AfterThresholds, AfterInjection, AfterDecisions, AfterRelease, RoundOf, InSync, SlosInSync;
    var c, l1 := CycleOf(l, inputs, settings), AfterThresholds(l, inputs, settings.interval);
    var l2 := AfterInjection(l, l1, inputs, settings);
    var l3 := AfterDecisions(l2, RoundOf(l, l1, inputs, settings), inputs.env.now);
    assert l3.severities == l2.severities && l3.governed == l2.governed && l3.thresholds == l2.thresholds by {
      DecidingKeepsRest(l2, RoundOf(l, l1, inputs, settings), inputs.env.now);
    }
    forall g | g in CountingOf(inputs, settings, c, service)
      ensures Lookup(l2.severities, g) == Lookup(c.severities, g)
    {
      if g.SloKey? { ReleaseSlo(l3, inputs.evaluated, g); } else { KeptGoverned(l3, inputs.evaluated, g.key); }
    }
  }

  lemma DecidingKeepsRest(l: Ledger, r: Round, at: real)
    ensures var l' := AfterDecisions(l, r, at);
            l'.severities == l.severities && l'.governed == l.governed && l'.thresholds == l.thresholds
  {
  }

  lemma KeptGoverned(l: Ledger, evaluated: map<GovKey, SloStatus>, k: Key)
    requires k in AfterRelease(l, evaluated).governed && forall g :: g in evaluated ==> g.SloKey?
    ensures Lookup(AfterRelease(l, evaluated).severities, ThresholdKey(k)) == Lookup(l.severities, ThresholdKey(k))
  {
  }

  /** With autonomy off only SLOs matter: a level changes only if an SLO of the service evaluated
      to a breach and was not stored as breaching. */
  lemma OffOnlySlosCount(l: Ledger, inputs: Inputs, settings: Settings, service: string)
    requires inputs.Ok() && InSync(l) && SlosInSync(l) && !settings.autonomy
    requires LevelIn(CycleOf(l, inputs, settings), service) != LevelIn(l, service)
    ensures exists g: GovKey :: g.SloKey? && Owner(g) == service && NewlyBreaching(l, inputs, g)
  {
    hide CycleOf, RuleLevel;
    LevelOutcome(l, inputs, settings, service);
    var g :| g in CountingOf(inputs, settings, CycleOf(l, inputs, settings), service) && IsNew(l, inputs, g);
    assert g.SloKey?;
  }

  /** With autonomy on, a threshold breach core accepts is decided and reduces its service. */
  lemma OnAcceptedBreachReduces(l: Ledger, inputs: Inputs, settings: Settings, k: Key)
    requires inputs.Ok() && InSync(l) && SlosInSync(l) && settings.autonomy
    requires k in BreachesIn(l, inputs, settings.interval)
    ensures var c, service := CycleOf(l, inputs, settings), Owner(ThresholdKey(k));
            && k in c.governed && Lookup(c.decisions, ThresholdKey(k)) == Some(Decision(inputs.env.now, "reduced"))
            && LevelIn(c, service) ==
                 RuleLevel(LevelIn(l, service), CountingOf(inputs, settings, c, service), c.severities)
  {
    hide CycleOf, RuleLevel, AfterThresholds, BreachesIn, MigratedState, InSync, SlosInSync;
    InjectedIff(l, inputs, settings, k);
    ThresholdsAfterCycle(l, inputs, settings);
    GovernedIff(l, inputs, settings, k);
    ThresholdOutcome(l, inputs, settings, k);
    LevelOutcome(l, inputs, settings, Owner(ThresholdKey(k)));
    assert IsNew(l, inputs, ThresholdKey(k));
  }

  lemma ThresholdsAfterCycle(l: Ledger, inputs: Inputs, settings: Settings)
    requires inputs.Ok()
    ensures CycleOf(l, inputs, settings).thresholds == AfterThresholds(l, inputs, settings.interval).thresholds
  {
    hide AfterThresholds, RoundOf;
  }

  /** With autonomy on, an open governed threshold breach counts beside a new SLO breach of its
      service, which then ends at advisor or observer. */
  lemma OnOpenBreachCounts(l: Ledger, inputs: Inputs, settings: Settings, k: Key, g: GovKey)
    requires inputs.Ok() && InSync(l) && SlosInSync(l) && settings.autonomy
    requires k in CycleOf(l, inputs, settings).governed && g.SloKey? && NewlyBreaching(l, inputs, g)
    requires Owner(ThresholdKey(k)) == Owner(g)
    ensures LevelIn(CycleOf(l, inputs, settings), Owner(g)) in {"advisor", "observer"}
  {
    hide CycleOf, InSync, SlosInSync;
    LevelOutcome(l, inputs, settings, Owner(g));
    var counting := CountingOf(inputs, settings, CycleOf(l, inputs, settings), Owner(g));
    assert IsNew(l, inputs, g) && g in counting && ThresholdKey(k) in counting;
    assert |counting - {g}| > 0;
  }

  // ---------- when a threshold run is due ----------

  /** A run is due if there was none, if the clock is behind the last one, or if the interval has
      passed. Then it is noted at its time, finished evaluations move their keys, and only a
      run that completes retires; otherwise nothing is evaluated and retirement still happens. */
  lemma RunsWhenDue(l: Ledger, inputs: Inputs, settings: Settings, k: Key)
    requires inputs.Ok()
    ensures var c, m := CycleOf(l, inputs, settings), MigratedState(l.thresholds, inputs.Live());
            var due := l.lastRun.None? || inputs.env.now < l.lastRun.value ||
                       inputs.env.now >= l.lastRun.value + settings.interval;
            var present := PresentServices(inputs.ms);
            && c.lastRun == (if due then Some(inputs.env.now) else l.lastRun)
            && (k in c.thresholds ==>
                  c.thresholds[k].ks ==
                    if due then Commit(StateOf(m, k), KeyEvent(inputs.steps, inputs.env, k), inputs.env.rearm)
                    else StateOf(m, k))
            && (k in m && ((due && !inputs.completed) || m[k].service !in present || k in inputs.Live()) ==>
                  k in c.thresholds)
            && (k in c.thresholds && (!due || inputs.completed) && c.thresholds[k].service in present ==>
                  k in inputs.Live())
  {
    hide AfterInjection, AfterDecisions, AfterRelease, RoundOf, MigratedState, EntriesOf, Advance, Applied;
    var m, live := MigratedState(l.thresholds, inputs.Live()), inputs.Live();
    ServedKeysAreProper(inputs.ms);
    ThresholdsAfterCycle(l, inputs, settings);
    LastRunAfterCycle(l, inputs, settings);
    AppliedIsOneEvent(m, live, StepsIn(l, inputs, settings.interval), inputs.env, k);
    if k in m { AppliedServices(m, live, DoneIn(l, inputs, settings.interval), inputs.env, k); }
  }

  lemma LastRunAfterCycle(l: Ledger, inputs: Inputs, settings: Settings)
    requires inputs.Ok()
    ensures CycleOf(l, inputs, settings).lastRun == AfterThresholds(l, inputs, settings.interval).lastRun
  {
    hide AfterThresholds, RoundOf;
  }

  lemma AppliedServices(s: State, live: Live, done: map<Key, Attempt>, env: Env, k: Key)
    requires done.Keys <= live.Keys && k in s
    ensures k in Applied(s, live, done, env)
    ensures Applied(s, live, done, env)[k].service == s[k].service || k in live
  {
  }
}
