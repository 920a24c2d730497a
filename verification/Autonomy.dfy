/** The autonomy ladder and the deterministic governance rule
    (measure/worker.py: `_reduce_autonomy`, `_compute_governance`). */
module Autonomy {

  /** Ordered least to most restrictive. */
  const LADDER: seq<string> :=
    ["fully_autonomous", "autonomous", "limited_autonomous", "advisor", "observer"]

  const INITIAL := "fully_autonomous"

  datatype Severity = Low | High | Critical | Other

  /** Position on the ladder; `|LADDER|` for an unknown level. */
  function Rank(level: string): (r: nat)
    ensures r < |LADDER| <==> level in LADDER
    ensures r < |LADDER| ==> LADDER[r] == level
  {
    if level == LADDER[0] then 0 else if level == LADDER[1] then 1 else if level == LADDER[2] then 2
    else if level == LADDER[3] then 3 else if level == LADDER[4] then 4 else 5
  }

  /** Positive steps drop; -1 and -2 are the floors observer and advisor. */
  function ReduceAutonomy(current: string, steps: int): (level: string)
    ensures level in LADDER
    ensures current in LADDER ==> Rank(current) <= Rank(level)
    ensures steps == -1 && current in LADDER ==> level == "observer"
    ensures steps == -2 && current in LADDER ==> Rank(level) >= 3
    ensures steps > 0 && current in LADDER && level != "observer" ==> Rank(level) == Rank(current) + steps
  {
    if current !in LADDER then "advisor"
    else
      var idx := Rank(current);
      var target := if steps == -1 then 4 else if steps == -2 then 3
                    else if idx + steps < 4 then idx + steps else 4;
      LADDER[if idx < target then target else idx]
  }

  /** Steps for a non-empty set of breaching keys. */
  function GovernanceSteps<K>(severities: map<K, Severity>, breaching: set<K>): int
    requires breaching != {}
  {
    if |breaching| > 1 then
      if exists k :: k in breaching && k in severities && severities[k] == Critical then -1 else -2
    else if exists k :: k in breaching && k in severities && severities[k] == Low then 1
    else if exists k :: k in breaching && k in severities && severities[k] == Critical then -1
    else if exists k :: k in breaching && k in severities && severities[k] == Other then 1
    else 2
  }

  /** The rule in words: one breach drops by its severity, several floor at advisor, and a
      critical one always floors at observer. */
  lemma GovernanceRule<K>(severities: map<K, Severity>, breaching: set<K>, k: K, current: string)
    requires k in breaching && current in LADDER
    ensures var next := ReduceAutonomy(current, GovernanceSteps(severities, breaching));
            && (k in severities && severities[k] == Critical ==> next == "observer")
            && (breaching != {k} ==> Rank(next) >= 3)
            && (breaching == {k} && (k !in severities || severities[k] == High) ==>
                  next == LADDER[if Rank(current) + 2 < 4 then Rank(current) + 2 else 4])
            && (breaching == {k} && k in severities && severities[k] == Low ==>
                  next == LADDER[if Rank(current) < 4 then Rank(current) + 1 else 4])
            && (Rank(next) > Rank(current) || current == "observer" || (current == "advisor" && breaching != {k}))
  {
    if breaching != {k} {
      assert |breaching - {k}| > 0;
    }
  }

  // ---------- the rule, in words ----------

  /** The next level down; below advisor there is only observer. */
  function Lower(level: string): string {
    if level == "fully_autonomous" then "autonomous"
    else if level == "autonomous" then "limited_autonomous"
    else if level == "limited_autonomous" then "advisor"
    else "observer"
  }

  /** Where breaches of these severities take a service: a critical one to observer, several
      others to advisor unless it is lower, a single one two levels down, or one if it is low
      or of no known severity. A service on an unknown level goes to advisor. */
  ghost function RuleLevel<K>(level: string, breaching: set<K>, severities: map<K, Severity>): string {
    if level !in {"fully_autonomous", "autonomous", "limited_autonomous", "advisor", "observer"} then "advisor"
    else if exists k :: k in breaching && k in severities && severities[k] == Critical then "observer"
    else if |breaching| > 1 then if level == "observer" then "observer" else "advisor"
    else if exists k :: k in breaching && k in severities && severities[k] in {Low, Other} then Lower(level)
    else Lower(Lower(level))
  }

  /** The computed steps, taken by the computed reduction, are that rule. */
  lemma GovernanceIsRule<K>(severities: map<K, Severity>, breaching: set<K>, current: string)
    requires breaching != {}
    ensures ReduceAutonomy(current, GovernanceSteps(severities, breaching)) == RuleLevel(current, breaching, severities)
  {
    hide Rank, Lower;
    StepsOfRule(severities, breaching);
    ReductionByName(current, GovernanceSteps(severities, breaching));
  }

  lemma StepsOfRule<K>(severities: map<K, Severity>, breaching: set<K>)
    requires breaching != {}
    ensures GovernanceSteps(severities, breaching) ==
            if exists k :: k in breaching && k in severities && severities[k] == Critical then -1
            else if |breaching| > 1 then -2
            else if exists k :: k in breaching && k in severities && severities[k] in {Low, Other} then 1
            else 2
  {
    if |breaching| == 1 {
      var k :| k in breaching;
      assert |breaching - {k}| == 0;
      assert breaching == {k};
    }
  }

  lemma ReductionByName(current: string, steps: int)
    requires steps in {-1, -2, 1, 2}
    ensures ReduceAutonomy(current, steps) ==
            if current !in {"fully_autonomous", "autonomous", "limited_autonomous", "advisor", "observer"}
            then "advisor"
            else if steps == -1 then "observer"
            else if steps == -2 then if current == "observer" then "observer" else "advisor"
            else if steps == 1 then Lower(current)
            else Lower(Lower(current))
  {
  }
}
