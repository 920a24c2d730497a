/** Hysteresis counted from the verdict log (measure/adapters/prometheus.py:
    `count_consecutive_breaches`, `evaluate_slos`). The log is newest first; only its newest
    `HistoryLimit` records are read. */
module BreachHistory {
  import opened Wrappers

  datatype QueryKind = NotEvaluable | JudgmentRate | ErrorBudget | Ratio

  datatype Slo = Slo(service: string, name: string, judgment: bool, target: real, kind: QueryKind)

  /** An evaluation verdict; `slo` is None for other writers' records, `raw` for records
      written before the raw flag was. */
  datatype Record = Record(service: string, slo: Option<string>, raw: Option<bool>)

  datatype Evaluation = Evaluation(service: string, name: string, value: real, breach: bool, consecutive: nat,
    raw: bool)

  // ---------- one SLO ----------

  predicate IsOf(r: Record, service: string, slo: string) { r.service == service && r.slo == Some(slo) }

  function Consecutive(log: seq<Record>, service: string, slo: string): nat {
    if |log| == 0 then 0
    else if !IsOf(log[0], service, slo) then Consecutive(log[1..], service, slo)
    else if log[0].raw == Some(true) then 1 + Consecutive(log[1..], service, slo)
    else 0
  }

  method CountConsecutiveBreaches(log: seq<Record>, service: string, slo: string) returns (count: nat)
    ensures count == Consecutive(log, service, slo)
  {
    count := 0;
    for i := 0 to |log|
      invariant Consecutive(log, service, slo) == count + Consecutive(log[i..], service, slo)
    {
      if IsOf(log[i], service, slo) {
        if log[i].raw == Some(true) {
          count := count + 1;
        } else {
          return;
        }
      }
    }
  }

  /** Whether one window breaches, by the kind of number the query returns. */
  predicate RawBreach(slo: Slo, value: real) {
    match slo.kind
    case JudgmentRate => (1.0 - value) * 100.0 < slo.target
    case ErrorBudget => value < 0.0
    case _ => value * 100.0 < slo.target
  }

  function HistoryLimit(threshold: nat, slos: nat): nat { (threshold + 1) * (if slos > 1 then slos else 1) * 2 }

  function Newest(log: seq<Record>, limit: nat): seq<Record> { if limit < |log| then log[..limit] else log }

  function EvaluationOf(slo: Slo, value: real, log: seq<Record>, threshold: nat): Evaluation {
    var raw := RawBreach(slo, value);
    var consecutive := if raw then Consecutive(log, slo.service, slo.name) + 1 else 0;
    Evaluation(slo.service, slo.name, value, if slo.judgment then consecutive >= threshold else raw, consecutive, raw)
  }

  /** Not evaluable, or without data: no evaluation. */
  predicate Evaluated(slo: Slo, value: Option<real>) { slo.kind != NotEvaluable && value.Some? }

  function EvaluationsOf(slos: seq<Slo>, values: seq<Option<real>>, log: seq<Record>, threshold: nat): seq<Evaluation>
    requires |values| == |slos|
  {
    if |slos| == 0 then []
    else
      var n := |slos| - 1;
      EvaluationsOf(slos[..n], values[..n], log, threshold) +
      if Evaluated(slos[n], values[n]) then [EvaluationOf(slos[n], values[n].value, log, threshold)] else []
  }

  method EvaluateSlos(slos: seq<Slo>, values: seq<Option<real>>, log: seq<Record>, threshold: nat)
    returns (results: seq<Evaluation>)
    requires |values| == |slos|
    ensures results == EvaluationsOf(slos, values, Newest(log, HistoryLimit(threshold, |slos|)), threshold)
  {
    results := [];
    var limit := HistoryLimit(threshold, |slos|);
    for i := 0 to |slos|
      invariant results == EvaluationsOf(slos[..i], values[..i], Newest(log, limit), threshold)
    {
      assert slos[..i + 1][..i] == slos[..i] && values[..i + 1][..i] == values[..i];
      var slo := slos[i];
      if slo.kind == NotEvaluable { continue; }
      if values[i].None? { continue; }
      var value := values[i].value;
      var raw;
      if slo.kind == JudgmentRate {
        raw := (1.0 - value) * 100.0 < slo.target;
      } else if slo.kind == ErrorBudget {
        raw := value < 0.0;
      } else {
        raw := value * 100.0 < slo.target;
      }
      var recent := Newest(log, limit);
      var consecutive := CountConsecutiveBreaches(recent, slo.service, slo.name);
      consecutive := if raw then consecutive + 1 else 0;
      var breach := raw;
      if slo.judgment { breach := consecutive >= threshold; }
      results := results + [Evaluation(slo.service, slo.name, value, breach, consecutive, raw)];
    }
    assert slos[..|slos|] == slos && values[..|values|] == values;
  }

  // ---------- what a result says ----------

  /** The window of an SLO breaches, by the kind of number its query returns: a judgment rate
      above the share of failures the target allows, an overspent error budget whatever the
      target, any other ratio below the target. */
  predicate WindowBreaches(slo: Slo, value: real) {
    match slo.kind
    case JudgmentRate => value > 1.0 - slo.target / 100.0
    case ErrorBudget => value < 0.0
    case _ => value < slo.target / 100.0
  }

  /** `e` is the evaluation of `slo`: it says whether the window breached, and judges by the count
      of breached windows up to it for a judgment SLO, by the window alone for another. */
  ghost predicate Evaluates(e: Evaluation, slo: Slo, value: real, log: seq<Record>, threshold: nat) {
    && e.service == slo.service && e.name == slo.name && e.value == value
    && (e.raw <==> WindowBreaches(slo, value))
    && (e.breach <==>
          if !slo.judgment then e.raw
          else threshold == 0 || (e.raw && AllBreached(Windows(log, slo.service, slo.name), threshold - 1)))
    && (!e.raw ==> e.consecutive == 0)
    && (e.raw ==> e.consecutive > 0 && AllBreached(Windows(log, slo.service, slo.name), e.consecutive - 1)
                  && !AllBreached(Windows(log, slo.service, slo.name), e.consecutive))
  }

  lemma EvaluationMeans(slo: Slo, value: real, log: seq<Record>, threshold: nat)
    ensures Evaluates(EvaluationOf(slo, value, log, threshold), slo, value, log, threshold)
  {
    hide Consecutive, Windows;
    var e := EvaluationOf(slo, value, log, threshold);
    if threshold > 0 { CountMeans(log, slo.service, slo.name, threshold - 1); }
    if e.raw {
      CountMeans(log, slo.service, slo.name, e.consecutive - 1);
      CountMeans(log, slo.service, slo.name, e.consecutive);
    }
  }

  /** SLO k is evaluated: its query can be, and returned a number. */
  predicate Answered(slos: seq<Slo>, values: seq<Option<real>>, k: int)
    requires |values| == |slos|
  {
    0 <= k < |slos| && slos[k].kind != NotEvaluable && values[k].Some?
  }

  ghost predicate ResultFor(slos: seq<Slo>, values: seq<Option<real>>, log: seq<Record>, threshold: nat, e: Evaluation,
                            k: int)
    requires |values| == |slos|
  {
    Answered(slos, values, k) && Evaluates(e, slos[k], values[k].value, log, threshold)
  }

  /** MAIN: every result of a cycle is that of an SLO that is evaluated, and says what its window
      and history say. */
  lemma {:induction false} ResultsMean(slos: seq<Slo>, values: seq<Option<real>>, log: seq<Record>, threshold: nat,
                                       e: Evaluation) returns (k: nat)
    requires |values| == |slos| && e in EvaluationsOf(slos, values, log, threshold)
    ensures ResultFor(slos, values, log, threshold, e, k)
    decreases |slos|
  {
    hide Evaluates, EvaluationOf;
    var n := |slos| - 1;
    if e in EvaluationsOf(slos[..n], values[..n], log, threshold) {
      k := ResultsMean(slos[..n], values[..n], log, threshold, e);
    } else {
      k := n;
      EvaluationMeans(slos[n], values[n].value, log, threshold);
    }
  }

  /** MAIN: and every SLO that is evaluated has its result. */
  lemma {:induction false} EachHasResult(slos: seq<Slo>, values: seq<Option<real>>, log: seq<Record>, threshold: nat,
                                         k: nat) returns (e: Evaluation)
    requires |values| == |slos| && Answered(slos, values, k)
    ensures e in EvaluationsOf(slos, values, log, threshold) && ResultFor(slos, values, log, threshold, e, k)
    decreases |slos|
  {
    hide Evaluates, EvaluationOf;
    var n := |slos| - 1;
    if k < n {
      e := EachHasResult(slos[..n], values[..n], log, threshold, k);
    } else {
      e := EvaluationOf(slos[n], values[n].value, log, threshold);
      EvaluationMeans(slos[n], values[n].value, log, threshold);
    }
  }

  /** One result for each, no more. */
  lemma {:induction false} ResultsAreCounted(slos: seq<Slo>, values: seq<Option<real>>, log: seq<Record>,
                                             threshold: nat)
    requires |values| == |slos|
    ensures |EvaluationsOf(slos, values, log, threshold)| == |set k | 0 <= k < |slos| && Answered(slos, values, k)|
    decreases |slos|
  {
    hide EvaluationOf;
    if |slos| == 0 {
      assert (set k | 0 <= k < |slos| && Answered(slos, values, k)) == {};
    } else {
      ResultsAreCounted(slos[..|slos| - 1], values[..|slos| - 1], log, threshold);
      AnsweredBefore(slos, values);
    }
  }

  lemma AnsweredBefore(slos: seq<Slo>, values: seq<Option<real>>)
    requires |values| == |slos| > 0
    ensures var n := |slos| - 1;
            (set k | 0 <= k < |slos| && Answered(slos, values, k)) ==
            (set k | 0 <= k < n && Answered(slos[..n], values[..n], k)) + if Answered(slos, values, n) then {n} else {}
  {
  }

  /** The records read are at most two for each SLO, and at least two, of the cycles that can
      matter and one more. */
  lemma ReadsEnough(log: seq<Record>, threshold: nat, slos: nat)
    ensures var most := 2 * (threshold + 1) * (if slos > 1 then slos else 1);
            var read := Newest(log, HistoryLimit(threshold, slos));
            read <= log && |read| == if |log| < most then |log| else most
  {
    LimitIs(threshold, if slos > 1 then slos else 1);
  }

  lemma LimitIs(threshold: nat, slos: nat)
    ensures (threshold + 1) * slos * 2 == 2 * (threshold + 1) * slos
  {
  }

  // ---------- what the count means ----------

  /** The raw flags of an SLO's windows, newest first. */
  function Windows(log: seq<Record>, service: string, slo: string): seq<Option<bool>> {
    if |log| == 0 then []
    else (if IsOf(log[0], service, slo) then [log[0].raw] else []) + Windows(log[1..], service, slo)
  }

  predicate AllBreached(windows: seq<Option<bool>>, k: nat) {
    k <= |windows| && forall i :: 0 <= i < k ==> windows[i] == Some(true)
  }

  /** The count reaches k exactly if the SLO's newest k windows all breached. */
  lemma {:induction false} CountMeans(log: seq<Record>, service: string, slo: string, k: nat)
    ensures Consecutive(log, service, slo) >= k <==> AllBreached(Windows(log, service, slo), k)
  {
    if |log| > 0 {
      var ws, rest := Windows(log, service, slo), Windows(log[1..], service, slo);
      if !IsOf(log[0], service, slo) {
        assert ws == rest;
        CountMeans(log[1..], service, slo, k);
      } else if k > 0 {
        CountMeans(log[1..], service, slo, k - 1);
        assert ws == [log[0].raw] + rest && ws[0] == log[0].raw;
        assert forall i :: 0 < i < |ws| ==> ws[i] == rest[i - 1];
        if AllBreached(ws, k) { assert forall i :: 0 <= i < k - 1 ==> rest[i] == ws[i + 1]; }
      }
    }
  }

  lemma {:induction false} WindowsOfSum(a: seq<Record>, b: seq<Record>, service: string, slo: string)
    ensures Windows(a + b, service, slo) == Windows(a, service, slo) + Windows(b, service, slo)
  {
    if |a| == 0 {
      assert a + b == b;
    } else {
      assert (a + b)[1..] == a[1..] + b && (a + b)[0] == a[0];
      WindowsOfSum(a[1..], b, service, slo);
      var head := if IsOf(a[0], service, slo) then [a[0].raw] else [];
      assert head + (Windows(a[1..], service, slo) + Windows(b, service, slo))
             == (head + Windows(a[1..], service, slo)) + Windows(b, service, slo);
    }
  }

  /** For any log at all, reading only its newest records changes the judgment exactly if the
      window breaches, the threshold - 1 before it all did, and the records read hold fewer
      of the SLO's windows than that. */
  lemma TruncationHarmlessIff(slo: Slo, value: real, log: seq<Record>, limit: nat, threshold: nat)
    requires threshold >= 1 && slo.judgment
    ensures EvaluationOf(slo, value, Newest(log, limit), threshold).breach ==
              EvaluationOf(slo, value, log, threshold).breach <==>
            !(RawBreach(slo, value) && AllBreached(Windows(log, slo.service, slo.name), threshold - 1)
              && |Windows(Newest(log, limit), slo.service, slo.name)| < threshold - 1)
  {
    hide RawBreach, Windows, Consecutive;
    var kept := Newest(log, limit);
    assert log == kept + log[|kept|..];
    WindowsOfSum(kept, log[|kept|..], slo.service, slo.name);
    CountMeans(log, slo.service, slo.name, threshold - 1);
    CountMeans(kept, slo.service, slo.name, threshold - 1);
    PrefixBreached(Windows(kept, slo.service, slo.name), Windows(log[|kept|..], slo.service, slo.name), threshold - 1);
  }

  lemma PrefixBreached(a: seq<Option<bool>>, b: seq<Option<bool>>, k: nat)
    ensures AllBreached(a, k) <==> AllBreached(a + b, k) && k <= |a|
  {
    assert forall i :: 0 <= i < |a| ==> (a + b)[i] == a[i];
    if k <= |a| && AllBreached(a + b, k) {
      forall i | 0 <= i < k
        ensures a[i] == Some(true)
      {
        assert (a + b)[i] == Some(true);
      }
    }
  }

  // ---------- a log written cycle by cycle ----------

  /** A log as the blocks its cycles wrote, newest first. */
  function Flat(cycles: seq<seq<Record>>): seq<Record> {
    if |cycles| == 0 then [] else cycles[0] + Flat(cycles[1..])
  }

  /** Each cycle wrote exactly one window of the SLO, in at most `width` records. */
  ghost predicate Regular(cycles: seq<seq<Record>>, width: nat, service: string, slo: string) {
    forall c :: 0 <= c < |cycles| ==> |cycles[c]| <= width && |Windows(cycles[c], service, slo)| == 1
  }

  lemma {:induction false} OneWindowPerCycle(cycles: seq<seq<Record>>, width: nat, service: string, slo: string)
    requires Regular(cycles, width, service, slo)
    ensures |Windows(Flat(cycles), service, slo)| == |cycles|
    ensures forall c :: 0 <= c < |cycles| ==>
              Windows(Flat(cycles), service, slo)[c] == Windows(cycles[c], service, slo)[0]
  {
    if |cycles| > 0 {
      WindowsOfSum(cycles[0], Flat(cycles[1..]), service, slo);
      assert Regular(cycles[1..], width, service, slo);
      OneWindowPerCycle(cycles[1..], width, service, slo);
    }
  }

  lemma {:induction false} FlatSplits(cycles: seq<seq<Record>>, n: nat)
    requires n <= |cycles|
    ensures Flat(cycles) == Flat(cycles[..n]) + Flat(cycles[n..])
    decreases n
  {
    if n == 0 {
      assert cycles[..0] == [] && cycles[0..] == cycles;
    } else {
      FlatSplits(cycles[1..], n - 1);
      assert cycles[..n] == [cycles[0]] + cycles[1..][..n - 1] && cycles[1..][n - 1..] == cycles[n..];
      assert cycles[..n][1..] == cycles[1..][..n - 1];
    }
  }

  lemma {:induction false} FlatLength(cycles: seq<seq<Record>>, width: nat)
    requires forall c :: 0 <= c < |cycles| ==> |cycles[c]| <= width
    ensures |Flat(cycles)| <= |cycles| * width
  {
    if |cycles| > 0 { FlatLength(cycles[1..], width); }
  }

  /** The newest records contain every window of the newest `n` cycles. */
  lemma NewestHoldsCycles(cycles: seq<seq<Record>>, width: nat, service: string, slo: string, n: nat, limit: nat)
    requires Regular(cycles, width, service, slo) && n * width <= limit && n <= |cycles|
    ensures Windows(Flat(cycles[..n]), service, slo) <= Windows(Newest(Flat(cycles), limit), service, slo)
    ensures Windows(Newest(Flat(cycles), limit), service, slo) <= Windows(Flat(cycles), service, slo)
  {
    var log, kept := Flat(cycles), Newest(Flat(cycles), limit);
    FlatSplits(cycles, n);
    FlatLength(cycles[..n], width);
    assert |Flat(cycles[..n])| <= limit;
    assert kept == Flat(cycles[..n]) + kept[|Flat(cycles[..n])|..];
    WindowsOfSum(Flat(cycles[..n]), kept[|Flat(cycles[..n])|..], service, slo);
    assert log == kept + log[|kept|..];
    WindowsOfSum(kept, log[|kept|..], service, slo);
  }

  /** Each of the newest `k` cycles exists and breached the SLO. */
  ghost predicate CyclesBreached(cycles: seq<seq<Record>>, k: nat, service: string, slo: string) {
    k <= |cycles| && forall c :: 0 <= c < k ==> Windows(cycles[c], service, slo) == [Some(true)]
  }

  /** MAIN: the truncated history gives the same judgment as the whole log, and the judgment
      is that the current window and the threshold - 1 before it all breached. */
  lemma TruncatedHistoryDecides(slo: Slo, value: real, cycles: seq<seq<Record>>, slos: nat, threshold: nat)
    requires threshold >= 1 && slos >= 1 && slo.judgment
    requires Regular(cycles, 2 * slos, slo.service, slo.name)
    ensures var log := Flat(cycles);
            var truncated := EvaluationOf(slo, value, Newest(log, HistoryLimit(threshold, slos)), threshold);
            && truncated.breach == EvaluationOf(slo, value, log, threshold).breach
            && (truncated.breach <==>
              RawBreach(slo, value) && CyclesBreached(cycles, threshold - 1, slo.service, slo.name))
  {
    hide HistoryLimit, Newest, Windows, Flat, RawBreach, Consecutive;
    var log, limit := Flat(cycles), HistoryLimit(threshold, slos);
    var service, name := slo.service, slo.name;
    var n := if threshold + 1 <= |cycles| then threshold + 1 else |cycles|;
    LimitCovers(threshold, slos, n);
    NewestHoldsCycles(cycles, 2 * slos, service, name, n, limit);
    OneWindowPerCycle(cycles, 2 * slos, service, name);
    assert Regular(cycles[..n], 2 * slos, service, name);
    OneWindowPerCycle(cycles[..n], 2 * slos, service, name);
    CountMeans(log, service, name, threshold - 1);
    CountMeans(Newest(log, limit), service, name, threshold - 1);
  }

  /** If other writers fill the records read, a judgment SLO cannot breach at all. */
  lemma StarvedHistoryNeverBreaches(slo: Slo, value: real, log: seq<Record>, limit: nat, threshold: nat)
    requires slo.judgment && threshold >= 2 && Windows(Newest(log, limit), slo.service, slo.name) == []
    ensures !EvaluationOf(slo, value, Newest(log, limit), threshold).breach
  {
    CountMeans(Newest(log, limit), slo.service, slo.name, 1);
  }

  lemma LimitCovers(threshold: nat, slos: nat, n: nat)
    requires slos >= 1 && n <= threshold + 1
    ensures n * (2 * slos) <= HistoryLimit(threshold, slos)
  {
    Times(n, threshold + 1, slos);
  }

  lemma Times(n: nat, m: nat, x: nat)
    requires n <= m
    ensures n * (2 * x) <= m * (2 * x) == m * x * 2
  {
  }

  // ---------- what a cycle writes ----------

  function Written(results: seq<Evaluation>): seq<Record> {
    if |results| == 0 then []
    else
      var last := results[|results| - 1];
      [Record(last.service, Some(last.name), Some(last.raw))] + Written(results[..|results| - 1])
  }

  predicate DistinctSlos(slos: seq<Slo>) {
    forall i, j :: 0 <= i < j < |slos| ==> !(slos[i].service == slos[j].service && slos[i].name == slos[j].name)
  }

  /** One more evaluation adds one record in front, a window only of its own SLO. */
  lemma OneMoreWritten(front: seq<Evaluation>, e: Evaluation, service: string, name: string)
    ensures |Written(front + [e])| == |Written(front)| + 1
    ensures Windows(Written(front + [e]), service, name) ==
            if e.service == service && e.name == name then [Some(e.raw)] + Windows(Written(front), service, name)
            else Windows(Written(front), service, name)
  {
    assert (front + [e])[..|front|] == front;
    var block := Written(front + [e]);
    assert block[1..] == Written(front);
  }

  /** The evaluations of a cycle are those of its first SLOs, and the last one's, if any. */
  lemma LastEvaluation(slos: seq<Slo>, values: seq<Option<real>>, log: seq<Record>, threshold: nat)
    requires |values| == |slos| > 0
    ensures var n := |slos| - 1;
            EvaluationsOf(slos, values, log, threshold) ==
            if Evaluated(slos[n], values[n])
            then EvaluationsOf(slos[..n], values[..n], log, threshold)
              + [EvaluationOf(slos[n], values[n].value, log, threshold)]
            else EvaluationsOf(slos[..n], values[..n], log, threshold)
  {
  }

  /** What a cycle writes is a regular block for each SLO it evaluated: one window, holding
      that evaluation's raw flag, among at most one record per SLO. */
  lemma {:induction false} WrittenIsRegular(slos: seq<Slo>, values: seq<Option<real>>, log: seq<Record>,
                                            threshold: nat, k: nat)
    requires |values| == |slos| && DistinctSlos(slos) && k < |slos| && Evaluated(slos[k], values[k])
    ensures var block := Written(EvaluationsOf(slos, values, log, threshold));
            && |block| <= |slos|
            && Windows(block, slos[k].service, slos[k].name) == [Some(RawBreach(slos[k], values[k].value))]
    decreases |slos|
  {
    hide Written, Windows, EvaluationsOf, RawBreach;
    var n := |slos| - 1;
    var front := EvaluationsOf(slos[..n], values[..n], log, threshold);
    LastEvaluation(slos, values, log, threshold);
    if Evaluated(slos[n], values[n]) {
      OneMoreWritten(front, EvaluationOf(slos[n], values[n].value, log, threshold), slos[k].service, slos[k].name);
    }
    if k < n {
      WrittenIsRegular(slos[..n], values[..n], log, threshold, k);
    } else {
      NotWritten(slos[..n], values[..n], log, threshold, slos[n]);
    }
  }

  lemma NothingWritten(log: seq<Record>, threshold: nat, slo: Slo)
    ensures Written(EvaluationsOf([], [], log, threshold)) == [] && Windows([], slo.service, slo.name) == []
  {
  }

  lemma {:induction false} NotWritten(slos: seq<Slo>, values: seq<Option<real>>, log: seq<Record>, threshold: nat,
                                      slo: Slo)
    requires |values| == |slos| && forall i :: 0 <= i < |slos| ==>
               !(slos[i].service == slo.service && slos[i].name == slo.name)
    ensures var block := Written(EvaluationsOf(slos, values, log, threshold));
            |block| <= |slos| && Windows(block, slo.service, slo.name) == []
    decreases |slos|
  {
    hide Written, Windows, EvaluationsOf, RawBreach;
    if |slos| == 0 {
      NothingWritten(log, threshold, slo);
    } else {
      var n := |slos| - 1;
      NotWritten(slos[..n], values[..n], log, threshold, slo);
      LastEvaluation(slos, values, log, threshold);
      if Evaluated(slos[n], values[n]) {
        OneMoreWritten(EvaluationsOf(slos[..n], values[..n], log, threshold),
                       EvaluationOf(slos[n], values[n].value, log, threshold), slo.service, slo.name);
      }
    }
  }
}
