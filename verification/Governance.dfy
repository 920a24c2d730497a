/** The measure cycle's governance ledger (measure/worker.py: `process_cycle` phases 1b-3,
    `_maybe_run_threshold_phase`, `_rename_threshold_governance`,
    `_inject_threshold_breaches`, `_release_threshold_governance`).

    `Ledger` is the module's persistent state as a value and `CycleOf` what one cycle makes
    of it. Each method of `MeasureModule` is proved to do its step of `CycleOf`. */
module Governance {
  import opened Wrappers
  import opened Hysteresis
  import opened ThresholdKeys
  import opened Migration
  import opened ThresholdPhase
  import opened Autonomy

  /** Keys of the governance dictionaries. */
  datatype GovKey = SloKey(service: string, name: string) | ThresholdKey(key: Key)

  datatype SloStatus = Healthy | Breaching

  datatype Decision = Decision(decidedAt: real, action: string)

  /** Text before the first ':'. */
  function FirstField(s: string): string {
    if s == "" || s[0] == ':' then "" else [s[0]] + FirstField(s[1..])
  }

  /** The service a key counts against: the first field of its text. */
  function Owner(k: GovKey): string {
    match k
    case SloKey(service, _) => FirstField(service)
    case ThresholdKey(key) => FirstField(key.base.service)
  }

  datatype Ledger = Ledger(
    sloStatus: map<GovKey, SloStatus>,
    decisions: map<GovKey, Decision>,
    severities: map<GovKey, Severity>,
    levels: map<string, string>,
    governed: set<Key>,
    thresholds: State,
    lastRun: Option<real>)

  /** Everything one cycle receives from outside: the manifests, the SLO evaluations that
      succeeded with the severity each breach would get, and the threshold run. */
  datatype Inputs = Inputs(
    ms: seq<Manifest>,
    evaluated: map<GovKey, SloStatus>,
    classified: map<GovKey, Severity>,
    steps: seq<Step>,
    completed: bool,
    env: Env)
  {
    ghost function Live(): Live { EntriesOf(AllServed(ms)) }
    ghost predicate Ok() {
      && Schedule(Live(), steps)
      && (forall k :: k in evaluated ==> k.SloKey? && k in classified)
    }
  }

  /** Operator settings, fixed at construction. */
  datatype Settings = Settings(autonomy: bool, interval: real)

  function Lookup<V>(m: map<GovKey, V>, k: GovKey): Option<V> { if k in m then Some(m[k]) else None }

  // ---------- phase 1b: the threshold run and the rename ----------

  predicate Due(lastRun: Option<real>, now: real, interval: real) {
    lastRun.None? || now < lastRun.value || now - lastRun.value >= interval
  }

  /** New key to old key of a migration. */
  ghost function BackOf(s: State, live: Live): map<Key, Key> {
    map n | n in live && n !in s && HasRecord(s, live, n) :: var o :| Pairs(s, live, o, n); o
  }

  /** What a store holds at `k` once the keys of `moved` have been renamed. */
  function RenamedAt<V>(was: map<GovKey, V>, renamed: map<Key, Key>, back: map<Key, Key>, moved: set<Key>,
                        k: GovKey): Option<V>
  {
    if k.ThresholdKey? && k.key in back && back[k.key] in moved && ThresholdKey(back[k.key]) in was
    then Some(was[ThresholdKey(back[k.key])])
    else if k.ThresholdKey? && k.key in renamed && k.key in moved then None
    else Lookup(was, k)
  }

  predicate RenamedIn(was: set<Key>, renamed: map<Key, Key>, back: map<Key, Key>, moved: set<Key>, k: Key) {
    if k in back && back[k] in moved && back[k] in was then true
    else if k in renamed && k in moved then false
    else k in was
  }

  function AsGov(keys: set<Key>): set<GovKey> { set k | k in keys :: ThresholdKey(k) }

  ghost function RenamedStore<V>(was: map<GovKey, V>, renamed: map<Key, Key>, back: map<Key, Key>,
                                 moved: set<Key>): map<GovKey, V>
  {
    map k | k in was.Keys + AsGov(back.Keys) && RenamedAt(was, renamed, back, moved, k).Some?
      :: RenamedAt(was, renamed, back, moved, k).value
  }

  ghost function RenamedKeys(was: set<Key>, renamed: map<Key, Key>, back: map<Key, Key>, moved: set<Key>): set<Key> {
    set k | k in was + back.Keys && RenamedIn(was, renamed, back, moved, k)
  }

  ghost function DoneIn(l: Ledger, inputs: Inputs, interval: real): map<Key, Attempt>
    requires inputs.Ok()
    ensures DoneIn(l, inputs, interval).Keys <= inputs.Live().Keys
  {
    ScheduledKeys(inputs.Live(), inputs.steps);
    Finished(StepsIn(l, inputs, interval))
  }

  /** The steps of the threshold run, if one is due. */
  function StepsIn(l: Ledger, inputs: Inputs, interval: real): seq<Step> {
    if Due(l.lastRun, inputs.env.now, interval) then inputs.steps else []
  }

  /** Threshold keys whose breach core accepts in this cycle. */
  ghost function BreachesIn(l: Ledger, inputs: Inputs, interval: real): set<Key>
    requires inputs.Ok()
  {
    NewBreaches(MigratedState(l.thresholds, inputs.Live()), DoneIn(l, inputs, interval), inputs.env)
  }

  ghost function RenamingOf(s: State, live: Live): map<Key, Key> {
    map o | o in s && Leaves(s, live, o) :: Dest(s, live, o)
  }

  ghost function AfterThresholds(l: Ledger, inputs: Inputs, interval: real): Ledger
    requires inputs.Ok()
  {
    var due := Due(l.lastRun, inputs.env.now, interval);
    var live, s := inputs.Live(), l.thresholds;
    var renamed, back := RenamingOf(s, live), BackOf(s, live);
    l.(thresholds := PhaseState(s, live, PresentServices(inputs.ms), DoneIn(l, inputs, interval),
                                due ==> inputs.completed, inputs.env),
       decisions := RenamedStore(l.decisions, renamed, back, l.governed),
       severities := RenamedStore(l.severities, renamed, back, l.governed),
       governed := RenamedKeys(l.governed, renamed, back, l.governed),
       lastRun := if due then Some(inputs.env.now) else l.lastRun)
  }

  // ---------- phase 2: transitions and injection ----------

  function Transitions(current: map<GovKey, SloStatus>, previous: map<GovKey, SloStatus>): set<GovKey> {
    set k | k in current && current[k] == Breaching && !(k in previous && previous[k] == Breaching)
  }

  /** Open threshold breaches: disarmed and decided. */
  function OpenBreaches(thresholds: State, decisions: map<GovKey, Decision>): set<Key> {
    set k | k in thresholds && !thresholds[k].ks.armed && ThresholdKey(k) in decisions
  }

  /** Phase 3's inputs: the statuses it counts and the breaches that are new. */
  datatype Round = Round(current: map<GovKey, SloStatus>, news: set<GovKey>)

  /** `m` with the threshold keys of `keys` set to `v`. */
  function Marked<V>(m: map<GovKey, V>, keys: set<Key>, v: V): map<GovKey, V> {
    map k | k in m.Keys + AsGov(keys) :: if k.ThresholdKey? && k.key in keys then v else m[k]
  }

  /** Threshold breaches count only with threshold autonomy on. */
  function Counted(breaches: set<Key>, autonomy: bool): set<Key> { if autonomy then breaches else {} }

  function Injected(l1: Ledger, breaches: set<Key>, autonomy: bool): set<Key> {
    if autonomy then OpenBreaches(l1.thresholds, l1.decisions) + breaches else {}
  }

  /** The severities once the SLO transitions are classified. */
  function Classified(severities: map<GovKey, Severity>, transitions: set<GovKey>, classified: map<GovKey, Severity>):
    map<GovKey, Severity>
    requires transitions <= classified.Keys
  {
    map k | k in severities.Keys + transitions :: if k in transitions then classified[k] else severities[k]
  }

  ghost function RoundOf(l: Ledger, l1: Ledger, inputs: Inputs, settings: Settings): Round
    requires inputs.Ok()
  {
    var breaches := BreachesIn(l, inputs, settings.interval);
    Round(Marked(inputs.evaluated, Injected(l1, breaches, settings.autonomy), Breaching),
          Transitions(inputs.evaluated, l.sloStatus) + AsGov(Counted(breaches, settings.autonomy)))
  }

  ghost function AfterInjection(l: Ledger, l1: Ledger, inputs: Inputs, settings: Settings): Ledger
    requires inputs.Ok()
  {
    var breaches := BreachesIn(l, inputs, settings.interval);
    var classified := Classified(l1.severities, Transitions(inputs.evaluated, l.sloStatus), inputs.classified);
    l1.(severities := Marked(classified, Counted(breaches, settings.autonomy), High),
        governed := l1.governed + Injected(l1, breaches, settings.autonomy))
  }

  // ---------- phase 3: decisions ----------

  function BreachingOf(current: map<GovKey, SloStatus>, service: string): set<GovKey> {
    set k | k in current && current[k] == Breaching && Owner(k) == service
  }

  /** Does phase 3 take a decision for `service`? */
  predicate Acts(decisions: map<GovKey, Decision>, r: Round, service: string) {
    (exists k :: k in BreachingOf(r.current, service) && k in r.news) &&
    (exists k :: k in BreachingOf(r.current, service) && k !in decisions)
  }

  function LevelOf(levels: map<string, string>, service: string): string {
    if service in levels then levels[service] else INITIAL
  }

  function NextLevel(l: Ledger, r: Round, service: string): string {
    if Acts(l.decisions, r, service) then
      var breaching := BreachingOf(r.current, service);
      ReduceAutonomy(LevelOf(l.levels, service), GovernanceSteps(l.severities, breaching))
    else LevelOf(l.levels, service)
  }

  function Owners(current: map<GovKey, SloStatus>): set<string> {
    set k | k in current && current[k] == Breaching :: Owner(k)
  }

  predicate Decides(l: Ledger, r: Round, k: GovKey) {
    k in r.current && r.current[k] == Breaching && Acts(l.decisions, r, Owner(k))
  }

  /** Phase 3 when it has treated the services of `treated`. */
  function AfterTreating(l: Ledger, r: Round, at: real, treated: set<string>): Ledger {
    l.(decisions := map k | k in l.decisions.Keys + r.current.Keys
                            && (k in l.decisions || (Decides(l, r, k) && Owner(k) in treated))
                      :: if k in l.decisions then l.decisions[k] else Decision(at, "reduced"),
       levels := map s | s in l.levels.Keys + Owners(r.current)
                         && (s in l.levels || (Acts(l.decisions, r, s) && s in treated))
                   :: if s in treated then NextLevel(l, r, s) else LevelOf(l.levels, s))
  }

  function AfterDecisions(l: Ledger, r: Round, at: real): Ledger { AfterTreating(l, r, at, Owners(r.current)) }

  // ---------- clearing, release, carrying forward ----------

  predicate Recovered(evaluated: map<GovKey, SloStatus>, k: GovKey) {
    k in evaluated && evaluated[k] == Healthy
  }

  /** A governed threshold key that re-armed or retired. */
  predicate Released(l: Ledger, k: Key) {
    k in l.governed && !(k in l.thresholds && !l.thresholds[k].ks.armed)
  }

  function ReleasedKeys(l: Ledger): set<Key> { set k | k in l.governed && Released(l, k) }

  function RecoveredKeys(l: Ledger, current: map<GovKey, SloStatus>): set<GovKey> {
    set k | k in l.decisions && Recovered(current, k)
  }

  function AfterRelease(l: Ledger, evaluated: map<GovKey, SloStatus>): Ledger {
    l.(decisions := l.decisions - RecoveredKeys(l, evaluated) - AsGov(ReleasedKeys(l)),
       severities := l.severities - RecoveredKeys(l, evaluated) - AsGov(ReleasedKeys(l)),
       governed := l.governed - ReleasedKeys(l),
       sloStatus := l.sloStatus + evaluated)
  }

  /** One measure cycle with a successful manifest response. */
  ghost function CycleOf(l: Ledger, inputs: Inputs, settings: Settings): Ledger
    requires inputs.Ok()
  {
    var l1 := AfterThresholds(l, inputs, settings.interval);
    var l2 := AfterInjection(l, l1, inputs, settings);
    var l3 := AfterDecisions(l2, RoundOf(l, l1, inputs, settings), inputs.env.now);
    AfterRelease(l3, inputs.evaluated)
  }

  // ---------- a cycle that fails ----------

  /** How far a cycle got that failed after the threshold phase: it had classified, and raised
      verdicts for, the transitions of `sent`; or it had treated the services of `treated`. */
  datatype Reach = InVerdicts(sent: set<GovKey>) | InGovernance(treated: set<string>)

  /** The fields a failed cycle leaves behind. */
  ghost function FailedCycle(l: Ledger, inputs: Inputs, settings: Settings, reach: Reach): Ledger
    requires inputs.Ok()
  {
    var l1 := AfterThresholds(l, inputs, settings.interval);
    match reach
    case InVerdicts(sent) =>
      l1.(severities := Classified(l1.severities, Transitions(inputs.evaluated, l.sloStatus) * sent, inputs.classified))
    case InGovernance(treated) =>
      AfterTreating(AfterInjection(l, l1, inputs, settings), RoundOf(l, l1, inputs, settings), inputs.env.now, treated)
  }
}
