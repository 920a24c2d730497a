/** MeasureModule as an object (measure/worker.py). Every method updates the fields the
    source updates, in the source's loops, and is proved against the step specification of
    the same step in Governance. */
module MeasureModule {
  import opened Wrappers
  import opened ThresholdKeys
  import opened Migration
  import opened ThresholdPhase
  import opened Autonomy
  import opened Governance

  class MeasureModule {
    const settings: Settings
    const thresholds: Thresholds
    var sloStatus: map<GovKey, SloStatus>
    var decisions: map<GovKey, Decision>
    var severities: map<GovKey, Severity>
    var levels: map<string, string>
    var governed: set<Key>
    var lastRun: Option<real>

    constructor (settings: Settings)
      ensures this.settings == settings && fresh(thresholds)
      ensures Value() == Ledger(map[], map[], map[], map[], {}, map[], None)
    {
      this.settings := settings;
      thresholds := new Thresholds();
      sloStatus, decisions, severities, levels, governed, lastRun := map[], map[], map[], map[], {}, None;
    }

    function Value(): Ledger
      reads this, thresholds
    {
      Ledger(sloStatus, decisions, severities, levels, governed, thresholds.state, lastRun)
    }

    /** One cycle, given a successful manifest response. */
    method ProcessCycle(inputs: Inputs)
      requires inputs.Ok()
      modifies this, thresholds
      ensures Value() == CycleOf(old(Value()), inputs, settings)
    {
      hide AfterThresholds, AfterDecisions, BreachesIn, Transitions, Marked, OpenBreaches, Classified;
      ghost var l := Value();
      var breaches := MaybeRunThresholdPhase(inputs);
      ghost var l1 := Value();
      PhaseLeavesStatuses(l, inputs, settings.interval);
      var current := inputs.evaluated;
      var news := DetectTransitions(current);
      severities := Classified(severities, news, inputs.classified);
      var injected;
      current, news, injected := InjectThresholdBreaches(breaches, current, news);
      assert Value() == AfterInjection(l, l1, inputs, settings);
      Govern(Round(current, news), inputs.env.now);
      ghost var l3 := Value();
      ClearRecovered(current);
      ReleaseThresholdGovernance();
      CarryForward(current, injected);
      ReleaseIsSpecified(l3, inputs.evaluated, current, injected);
    }

    method MaybeRunThresholdPhase(inputs: Inputs) returns (breaches: set<Key>)
      requires inputs.Ok()
      modifies this`decisions, this`severities, this`governed, this`lastRun, thresholds
      ensures Value() == AfterThresholds(old(Value()), inputs, settings.interval)
      ensures breaches == BreachesIn(old(Value()), inputs, settings.interval)
    {
      hide MigratedState, PhaseState, NewBreaches, RenamedStore, RenamedKeys, EntriesOf, FullyPresent;
      ghost var s := thresholds.state;
      var renamed;
      if Due(lastRun, inputs.env.now, settings.interval) {
        lastRun := Some(inputs.env.now);
        renamed, breaches := thresholds.RunPhase(inputs.ms, inputs.steps, inputs.completed, inputs.env);
      } else {
        renamed, breaches := thresholds.RunPhase(inputs.ms, [], true, inputs.env);
      }
      RenamingDetermined(s, inputs.Live(), renamed);
      RenameThresholdGovernance(renamed, BackOf(s, inputs.Live()));
    }

    method RenameThresholdGovernance(renamed: map<Key, Key>, ghost back: map<Key, Key>)
      requires IsInverse(renamed, {}, back) && forall n :: n in back ==> n !in renamed
      modifies this`decisions, this`severities, this`governed
      ensures decisions == RenamedStore(old(decisions), renamed, back, old(governed))
      ensures severities == RenamedStore(old(severities), renamed, back, old(governed))
      ensures governed == RenamedKeys(old(governed), renamed, back, old(governed))
    {
      ghost var d, v, g := decisions, severities, governed;
      var todo := renamed.Keys;
      while todo != {}
        invariant todo <= renamed.Keys
        invariant forall k :: Lookup(decisions, k) == RenamedAt(d, renamed, back, g - todo, k)
        invariant forall k :: Lookup(severities, k) == RenamedAt(v, renamed, back, g - todo, k)
        invariant forall k :: k in governed <==> RenamedIn(g, renamed, back, g - todo, k)
      {
        var o :| o in todo;
        var n := renamed[o];
        assert o in governed <==> RenamedIn(g, renamed, back, g - todo, o);
        RenameOne(d, decisions, renamed, back, g - todo, o, o in g);
        RenameOne(v, severities, renamed, back, g - todo, o, o in g);
        if o in governed {
          if ThresholdKey(o) in decisions {
            decisions := (decisions - {ThresholdKey(o)})[ThresholdKey(n) := decisions[ThresholdKey(o)]];
          }
          if ThresholdKey(o) in severities {
            severities := (severities - {ThresholdKey(o)})[ThresholdKey(n) := severities[ThresholdKey(o)]];
          }
          governed := governed - {o} + {n};
        }
        assert g - (todo - {o}) == (g - todo) + (if o in g then {o} else {});
        todo := todo - {o};
      }
      assert g - todo == g;
      StoreIs(d, renamed, back, g, decisions);
      StoreIs(v, renamed, back, g, severities);
    }

    method DetectTransitions(current: map<GovKey, SloStatus>) returns (news: set<GovKey>)
      ensures news == Transitions(current, sloStatus)
    {
      news := {};
      var todo := current.Keys;
      while todo != {}
        invariant todo <= current.Keys
        invariant news == set k | k in Transitions(current, sloStatus) && k !in todo
      {
        var k :| k in todo;
        if current[k] == Breaching && !(k in sloStatus && sloStatus[k] == Breaching) {
          news := news + {k};
        }
        todo := todo - {k};
      }
    }

    method InjectThresholdBreaches(breaches: set<Key>, current: map<GovKey, SloStatus>, news: set<GovKey>)
      returns (current': map<GovKey, SloStatus>, news': set<GovKey>, injected: set<Key>)
      modifies this`severities, this`governed
      ensures injected == Injected(old(Value()), breaches, settings.autonomy)
      ensures current' == Marked(current, injected, Breaching)
      ensures news' == news + AsGov(Counted(breaches, settings.autonomy))
      ensures severities == Marked(old(severities), Counted(breaches, settings.autonomy), High)
      ensures governed == old(governed) + injected
    {
      current', news', injected := current, news, {};
      assert AsGov({}) == {} && severities == Marked(severities, {}, High) && current == Marked(current, {}, Breaching);
      if settings.autonomy {
        current', injected := InjectOpen(current);
        current', news' := InjectNew(breaches, current, current', news, injected);
        injected := injected + breaches;
      }
      governed := governed + injected;
    }

    /** Open, already decided breaches count every cycle. */
    method InjectOpen(current: map<GovKey, SloStatus>)
      returns (current': map<GovKey, SloStatus>, injected: set<Key>)
      ensures injected == OpenBreaches(thresholds.state, decisions)
      ensures current' == Marked(current, injected, Breaching)
    {
      current', injected := current, {};
      assert current == Marked(current, {}, Breaching);
      var todo := thresholds.state.Keys;
      while todo != {}
        invariant todo <= thresholds.state.Keys
        invariant injected == set k | k in OpenBreaches(thresholds.state, decisions) && k !in todo
        invariant current' == Marked(current, injected, Breaching)
      {
        var k :| k in todo;
        if !thresholds.state[k].ks.armed && ThresholdKey(k) in decisions {
          MarkOneMore(current, injected, k, Breaching);
          current' := current'[ThresholdKey(k) := Breaching];
          injected := injected + {k};
        }
        todo := todo - {k};
      }
    }

    /** The breaches of this cycle enter as new high breaches. */
    method InjectNew(breaches: set<Key>, ghost current: map<GovKey, SloStatus>, marked: map<GovKey, SloStatus>,
                     news: set<GovKey>, ghost open: set<Key>)
      returns (marked': map<GovKey, SloStatus>, news': set<GovKey>)
      requires marked == Marked(current, open, Breaching)
      modifies this`severities
      ensures marked' == Marked(current, open + breaches, Breaching)
      ensures news' == news + AsGov(breaches)
      ensures severities == Marked(old(severities), breaches, High)
    {
      marked', news' := marked, news;
      ghost var v := severities;
      ghost var done: set<Key> := {};
      var todo := breaches;
      assert AsGov({}) == {} && v == Marked(v, {}, High) && open + {} == open;
      while todo != {}
        invariant todo !! done && done + todo == breaches
        invariant marked' == Marked(current, open + done, Breaching)
        invariant news' == news + AsGov(done)
        invariant severities == Marked(v, done, High)
      {
        var k :| k in todo;
        MarkOneMore(current, open + done, k, Breaching);
        MarkOneMore(v, done, k, High);
        assert open + done + {k} == open + (done + {k});
        marked' := marked'[ThresholdKey(k) := Breaching];
        news' := news' + {ThresholdKey(k)};
        severities := severities[ThresholdKey(k) := High];
        done := done + {k};
        todo := todo - {k};
      }
      assert done == breaches;
    }

    /** Phase 3, service by service. */
    method Govern(r: Round, at: real)
      modifies this`decisions, this`levels
      ensures Value() == AfterDecisions(old(Value()), r, at)
    {
      ghost var l := Value();
      var services := Owners(r.current);
      ghost var done: set<string> := {};
      while services != {}
        invariant done !! services && done + services == Owners(r.current)
        invariant Treated(l, r, at, done, decisions, levels)
      {
        var service :| service in services;
        var breaching := BreachingOf(r.current, service);
        TreatOne(l, r, at, done, decisions, levels, service);
        if (exists k :: k in breaching && k in r.news) && (exists k :: k in breaching && k !in decisions) {
          var steps := GovernanceSteps(severities, breaching);
          decisions := decisions + map k | k in breaching && k !in decisions :: Decision(at, "reduced");
          levels := levels[service := ReduceAutonomy(LevelOf(levels, service), steps)];
        }
        done := done + {service};
        services := services - {service};
      }
      TreatedIsSpecified(l, r, at, done, decisions, levels);
    }

    method ClearRecovered(current: map<GovKey, SloStatus>)
      modifies this`decisions, this`severities
      ensures decisions == old(decisions) - RecoveredKeys(old(Value()), current)
      ensures severities == old(severities) - RecoveredKeys(old(Value()), current)
    {
      ghost var l := Value();
      ghost var gone: set<GovKey> := {};
      var todo := decisions.Keys;
      while todo != {}
        invariant todo <= l.decisions.Keys
        invariant gone == set k | k in RecoveredKeys(l, current) && k !in todo
        invariant decisions == l.decisions - gone && severities == l.severities - gone
      {
        var k :| k in todo;
        if k in current && current[k] == Healthy {
          decisions, severities := decisions - {k}, severities - {k};
          gone := gone + {k};
        }
        todo := todo - {k};
      }
      assert gone == RecoveredKeys(l, current);
    }

    method ReleaseThresholdGovernance()
      modifies this`decisions, this`severities, this`governed
      ensures decisions == old(decisions) - AsGov(ReleasedKeys(old(Value())))
      ensures severities == old(severities) - AsGov(ReleasedKeys(old(Value())))
      ensures governed == old(governed) - ReleasedKeys(old(Value()))
    {
      ghost var l := Value();
      ghost var gone: set<Key> := {};
      var todo := governed;
      while todo != {}
        invariant todo <= l.governed
        invariant gone == set k | k in ReleasedKeys(l) && k !in todo
        invariant decisions == l.decisions - AsGov(gone) && severities == l.severities - AsGov(gone)
        invariant governed == l.governed - gone
      {
        var k :| k in todo;
        if k !in thresholds.state || thresholds.state[k].ks.armed {
          decisions, severities := decisions - {ThresholdKey(k)}, severities - {ThresholdKey(k)};
          governed := governed - {k};
          assert AsGov(gone + {k}) == AsGov(gone) + {ThresholdKey(k)};
          gone := gone + {k};
        }
        todo := todo - {k};
      }
      assert gone == ReleasedKeys(l);
    }

    /** Drops the injected keys and keeps the status of SLOs that were not evaluated. */
    method CarryForward(current: map<GovKey, SloStatus>, injected: set<Key>)
      modifies this`sloStatus
      ensures sloStatus == old(sloStatus) + (current - AsGov(injected))
    {
      var next := current - AsGov(injected);
      ghost var evaluated := next;
      var todo := sloStatus.Keys;
      while todo != {}
        invariant todo <= sloStatus.Keys
        invariant next == evaluated + map k | k in sloStatus && k !in todo && k !in evaluated :: sloStatus[k]
      {
        var k :| k in todo;
        if k !in next {
          next := next[k := sloStatus[k]];
        }
        todo := todo - {k};
      }
      sloStatus := next;
    }
  }

  // ---------- rename ----------

  lemma RenamingDetermined(s: State, live: Live, renamed: map<Key, Key>)
    requires ProperKeys(live) && IsRenaming(s, live, renamed)
    ensures renamed == RenamingOf(s, live)
    ensures IsInverse(renamed, {}, BackOf(s, live))
    ensures forall n :: n in BackOf(s, live) ==> n !in renamed
  {
    hide ProperKeys, Pairs, RenamingOf, BackOf;
    forall o
      ensures o in renamed <==> o in RenamingOf(s, live)
      ensures o in renamed ==>
                renamed[o] == RenamingOf(s, live)[o] && renamed[o] in BackOf(s, live) &&
                BackOf(s, live)[renamed[o]] == o
    {
      RenamedPair(s, live, renamed, o);
    }
    forall n | n in BackOf(s, live)
      ensures BackOf(s, live)[n] in renamed && renamed[BackOf(s, live)[n]] == n && n !in renamed
    {
      BackPair(s, live, renamed, n);
    }
  }

  lemma RenamedPair(s: State, live: Live, renamed: map<Key, Key>, o: Key)
    requires ProperKeys(live) && IsRenaming(s, live, renamed)
    ensures o in renamed <==> o in RenamingOf(s, live)
    ensures o in renamed ==>
              renamed[o] == RenamingOf(s, live)[o] && renamed[o] in BackOf(s, live) && BackOf(s, live)[renamed[o]] == o
  {
    if o in renamed {
      hide ProperKeys, ByDigest, ByElimination;
      assert Pairs(s, live, o, renamed[o]);
      PairFacts(s, live, o, renamed[o]);
      PairingIsInjective(s, live, o, renamed[o], o, Dest(s, live, o));
      assert HasRecord(s, live, renamed[o]);
      PairingIsInjective(s, live, o, renamed[o], BackOf(s, live)[renamed[o]], renamed[o]);
    }
  }

  lemma BackPair(s: State, live: Live, renamed: map<Key, Key>, n: Key)
    requires ProperKeys(live) && IsRenaming(s, live, renamed) && n in BackOf(s, live)
    ensures BackOf(s, live)[n] in renamed && renamed[BackOf(s, live)[n]] == n && n !in renamed
  {
    hide ProperKeys, ByDigest, ByElimination;
    assert Pairs(s, live, BackOf(s, live)[n], n);
    PairFacts(s, live, BackOf(s, live)[n], n);
    if n in renamed { PairFacts(s, live, n, renamed[n]); }
  }

  lemma RenameOne<V>(was: map<GovKey, V>, store: map<GovKey, V>, renamed: map<Key, Key>, back: map<Key, Key>,
                     moved: set<Key>, o: Key, moves: bool)
    requires IsInverse(renamed, {}, back) && (forall n :: n in back ==> n !in renamed)
    requires o in renamed && o !in moved
    requires forall k :: Lookup(store, k) == RenamedAt(was, renamed, back, moved, k)
    ensures var store' := if moves && ThresholdKey(o) in store
                          then (store - {ThresholdKey(o)})[ThresholdKey(renamed[o]) := store[ThresholdKey(o)]]
                            else store;
            forall k :: Lookup(store', k) == RenamedAt(was, renamed, back, moved + (if moves then {o} else {}), k)
  {
    var store' := if moves && ThresholdKey(o) in store
                  then (store - {ThresholdKey(o)})[ThresholdKey(renamed[o]) := store[ThresholdKey(o)]] else store;
    assert Lookup(store, ThresholdKey(o)) == RenamedAt(was, renamed, back, moved, ThresholdKey(o));
    forall k
      ensures Lookup(store', k) == RenamedAt(was, renamed, back, moved + (if moves then {o} else {}), k)
    {
      assert Lookup(store, k) == RenamedAt(was, renamed, back, moved, k);
    }
  }

  lemma StoreIs<V>(was: map<GovKey, V>, renamed: map<Key, Key>, back: map<Key, Key>, moved: set<Key>,
                   store: map<GovKey, V>)
    requires forall k :: Lookup(store, k) == RenamedAt(was, renamed, back, moved, k)
    ensures store == RenamedStore(was, renamed, back, moved)
  {
    forall k
      ensures k in store <==> k in RenamedStore(was, renamed, back, moved)
      ensures k in store ==> store[k] == RenamedStore(was, renamed, back, moved)[k]
    {
      assert Lookup(store, k) == RenamedAt(was, renamed, back, moved, k);
    }
  }

  // ---------- injection ----------

  lemma PhaseLeavesStatuses(l: Ledger, inputs: Inputs, interval: real)
    requires inputs.Ok()
    ensures AfterThresholds(l, inputs, interval).sloStatus == l.sloStatus
    ensures Transitions(inputs.evaluated, l.sloStatus) <= inputs.classified.Keys
  {
    hide PhaseState, RenamedStore, RenamedKeys, RenamingOf, BackOf;
  }

  lemma MarkOneMore<V>(m: map<GovKey, V>, keys: set<Key>, k: Key, v: V)
    ensures Marked(m, keys + {k}, v) == Marked(m, keys, v)[ThresholdKey(k) := v]
    ensures AsGov(keys + {k}) == AsGov(keys) + {ThresholdKey(k)}
  {
  }

  // ---------- decisions ----------

  function LevelAt(levels: map<string, string>, s: string): Option<string> {
    if s in levels then Some(levels[s]) else None
  }

  /** The decision on `k` once the services in `done` have been treated. */
  ghost function DecisionAt(l: Ledger, r: Round, at: real, done: set<string>, k: GovKey): Option<Decision> {
    if k in l.decisions then Some(l.decisions[k])
    else if Decides(l, r, k) && Owner(k) in done then Some(Decision(at, "reduced")) else None
  }

  ghost function LevelAfter(l: Ledger, r: Round, done: set<string>, s: string): Option<string> {
    if s in done && Acts(l.decisions, r, s) then Some(NextLevel(l, r, s)) else LevelAt(l.levels, s)
  }

  ghost predicate Treated(l: Ledger, r: Round, at: real, done: set<string>,
                          decisions: map<GovKey, Decision>, levels: map<string, string>)
  {
    && (forall k :: Lookup(decisions, k) == DecisionAt(l, r, at, done, k))
    && (forall s :: LevelAt(levels, s) == LevelAfter(l, r, done, s))
  }

  lemma TreatOne(l: Ledger, r: Round, at: real, done: set<string>, decisions: map<GovKey, Decision>,
                 levels: map<string, string>, service: string)
    requires Treated(l, r, at, done, decisions, levels) && service !in done
    ensures var breaching := BreachingOf(r.current, service);
            var acts := (exists k :: k in breaching && k in r.news) && (exists k :: k in breaching && k !in decisions);
            && (acts ==> breaching != {})
            && Treated(l, r, at, done + {service},
                       if acts then decisions + map k | k in breaching && k !in decisions :: Decision(at, "reduced")
                         else decisions,
                       if acts then levels[service := ReduceAutonomy(LevelOf(levels, service),
                                                                     GovernanceSteps(l.severities, breaching))]
                       else levels)
  {
    hide NextLevel, DecisionAt, LevelAfter;
    var breaching := BreachingOf(r.current, service);
    UndecidedUntouched(l, r, at, done, decisions, service);
    var acts := (exists k :: k in breaching && k in r.news) && (exists k :: k in breaching && k !in decisions);
    assert acts <==> Acts(l.decisions, r, service);
    forall k { TreatDecision(l, r, at, done, decisions, service, k); }
    forall s { TreatLevel(l, r, done, levels, service, s); }
  }

  lemma UndecidedUntouched(l: Ledger, r: Round, at: real, done: set<string>, decisions: map<GovKey, Decision>,
                           service: string)
    requires (forall k :: Lookup(decisions, k) == DecisionAt(l, r, at, done, k)) && service !in done
    ensures forall k :: k in BreachingOf(r.current, service) ==> (k in decisions <==> k in l.decisions)
  {
    forall k | k in BreachingOf(r.current, service)
      ensures k in decisions <==> k in l.decisions
    {
      assert Lookup(decisions, k) == DecisionAt(l, r, at, done, k);
    }
  }

  lemma TreatDecision(l: Ledger, r: Round, at: real, done: set<string>, decisions: map<GovKey, Decision>,
                      service: string, k: GovKey)
    requires Lookup(decisions, k) == DecisionAt(l, r, at, done, k) && service !in done
    ensures var breaching := BreachingOf(r.current, service);
            Lookup(if Acts(l.decisions, r, service)
                   then decisions + map k | k in breaching && k !in decisions :: Decision(at, "reduced")
                     else decisions, k)
            == DecisionAt(l, r, at, done + {service}, k)
  {
    hide Acts;
  }

  lemma TreatLevel(l: Ledger, r: Round, done: set<string>, levels: map<string, string>, service: string, s: string)
    requires LevelAt(levels, s) == LevelAfter(l, r, done, s)
    requires LevelAt(levels, service) == LevelAfter(l, r, done, service)
    requires service !in done
    ensures LevelAt(if Acts(l.decisions, r, service)
                    then levels[service := ReduceAutonomy(LevelOf(levels, service),
                      GovernanceSteps(l.severities, BreachingOf(r.current, service)))]
                    else levels, s)
            == LevelAfter(l, r, done + {service}, s)
  {
    hide Acts, GovernanceSteps, ReduceAutonomy;
  }

  /** At every point of the loop over services the fields are as `AfterTreating` says, so that
      is what a failure in it leaves. */
  lemma TreatedIsSpecified(l: Ledger, r: Round, at: real, done: set<string>, decisions: map<GovKey, Decision>,
                           levels: map<string, string>)
    requires Treated(l, r, at, done, decisions, levels) && done <= Owners(r.current)
    ensures l.(decisions := decisions, levels := levels) == AfterTreating(l, r, at, done)
  {
    hide AfterTreating, DecisionAt, LevelAfter;
    LevelsAreSpecified(l, r, at, done, decisions, levels);
    DecisionsAreSpecified(l, r, at, done, decisions, levels);
    OnlyDecisionsAndLevels(l, r, at, done);
  }

  lemma OnlyDecisionsAndLevels(l: Ledger, r: Round, at: real, done: set<string>)
    ensures var l' := AfterTreating(l, r, at, done); l' == l.(decisions := l'.decisions, levels := l'.levels)
  {
  }

  lemma DecisionsAreSpecified(l: Ledger, r: Round, at: real, done: set<string>, decisions: map<GovKey, Decision>,
                              levels: map<string, string>)
    requires Treated(l, r, at, done, decisions, levels)
    ensures decisions == AfterTreating(l, r, at, done).decisions
  {
    hide NextLevel, Owner, LevelAfter, Acts;
    forall k
      ensures k in decisions <==> k in AfterTreating(l, r, at, done).decisions
      ensures k in decisions ==> decisions[k] == AfterTreating(l, r, at, done).decisions[k]
    {
      assert Lookup(decisions, k) == DecisionAt(l, r, at, done, k);
    }
  }

  lemma LevelsAreSpecified(l: Ledger, r: Round, at: real, done: set<string>, decisions: map<GovKey, Decision>,
                           levels: map<string, string>)
    requires Treated(l, r, at, done, decisions, levels) && done <= Owners(r.current)
    ensures levels == AfterTreating(l, r, at, done).levels
  {
    hide GovernanceSteps, ReduceAutonomy, Owner, DecisionAt;
    forall s
      ensures s in levels <==> s in AfterTreating(l, r, at, done).levels
      ensures s in levels ==> levels[s] == AfterTreating(l, r, at, done).levels[s]
    {
      assert LevelAt(levels, s) == LevelAfter(l, r, done, s);
    }
  }

  // ---------- release ----------

  lemma ReleaseIsSpecified(l: Ledger, evaluated: map<GovKey, SloStatus>, current: map<GovKey, SloStatus>,
                           injected: set<Key>)
    requires (forall k :: k in evaluated ==> k.SloKey?) && current == Marked(evaluated, injected, Breaching)
    ensures current - AsGov(injected) == evaluated
    ensures RecoveredKeys(l, current) == RecoveredKeys(l, evaluated)
    ensures ReleasedKeys(l.(decisions := l.decisions - RecoveredKeys(l, current),
                            severities := l.severities - RecoveredKeys(l, current))) == ReleasedKeys(l)
  {
    var m := l.(decisions := l.decisions - RecoveredKeys(l, current),
      severities := l.severities - RecoveredKeys(l, current));
    forall k
      ensures Released(m, k) <==> Released(l, k)
    {
    }
  }
}
