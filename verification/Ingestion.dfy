/** Trigger ingestion and driving (respond/worker.py: `_ingest_snapshots`,
    `_ingest_orphan_breaches`, `_incidents_triggered_from`, `_drive_active_incidents`,
    `get_state`, `restore_state`; respond/worker_helpers.py).

    Timestamps are integers ordered as their ISO strings; a missing or empty one is None. */
module Ingestion {
  import opened Wrappers
  import opened Incidents
  import opened Pipeline
  import opened Sorting

  type Time = Option<int>

  /** A polled record: a snapshot with the breaches it names, or a breach (naming none).
      `opens` says whether building an incident from it succeeds. */
  datatype Record = Record(id: Option<string>, createdAt: Time, parents: seq<string>, opens: bool)

  datatype Incident = Incident(context: Context, fromSnapshot: bool, trigger: string, parents: seq<string>)

  datatype Module = Module(
    snapshotAfter: Time,
    breachAfter: Time,
    incidents: map<nat, Incident>,
    nextId: nat)

  const EMPTY := Module(None, None, map[], 0)

  // ---------- pages ----------

  /** `None` orders first, as the empty string does. */
  predicate Before(a: Time, b: Time) { b.Some? && (a.None? || a.value < b.value) }

  predicate NotAfter(a: Time, b: Time) { !Before(b, a) }

  /** A record both loops act on. */
  predicate Usable(r: Record) { r.id.Some? && r.id.value != "" && r.createdAt.Some? }

  /** `filter_after`. */
  function FilterAfter(page: seq<Record>, cursor: Time): seq<Record> {
    if |page| == 0 then []
    else if cursor.None? || Before(cursor, page[0].createdAt) then [page[0]] + FilterAfter(page[1..], cursor)
    else FilterAfter(page[1..], cursor)
  }

  predicate Earlier(a: Record, b: Record) { Before(a.createdAt, b.createdAt) }

  /** A page in order of creation. */
  function ByTime(page: seq<Record>): seq<Record> { Sort(page, Earlier) }

  /** `breach_ids_with_snapshots`. */
  function NamedBy(page: seq<Record>): set<string> { set i, p | 0 <= i < |page| && p in page[i].parents :: p }

  /** `_incidents_triggered_from`. */
  function TriggersOf(inc: Incident): set<string> { {inc.trigger} + set p | p in inc.parents }

  function TriggeredFrom(m: Module): set<string> {
    set k, t | k in m.incidents && t in TriggersOf(m.incidents[k]) :: t
  }

  // ---------- one record at a time ----------

  function IncidentOf(r: Record, fromSnapshot: bool): Incident
    requires Usable(r)
  {
    Incident(OPENED, fromSnapshot, r.id.value, if fromSnapshot then r.parents else [])
  }

  /** Is an incident opened for `r`, when the ids in `skip` are already covered? */
  predicate Opens(r: Record, skip: set<string>) { Usable(r) && r.opens && r.id.value !in skip }

  function Opened(m: Module, r: Record, fromSnapshot: bool): Module
    requires Usable(r)
  {
    m.(incidents := m.incidents[m.nextId := IncidentOf(r, fromSnapshot)], nextId := m.nextId + 1)
  }

  /** One iteration of either loop: open unless covered, then advance the cursor whatever
      happened. */
  function Ingested(m: Module, r: Record, fromSnapshot: bool, skip: set<string>): Module {
    if !Usable(r) then m
    else
      var m' := if Opens(r, skip) then Opened(m, r, fromSnapshot) else m;
      if fromSnapshot then m'.(snapshotAfter := r.createdAt) else m'.(breachAfter := r.createdAt)
  }

  function IngestedAll(m: Module, rs: seq<Record>, fromSnapshot: bool, skip: set<string>): Module {
    if |rs| == 0 then m
    else Ingested(IngestedAll(m, rs[..|rs| - 1], fromSnapshot, skip), rs[|rs| - 1], fromSnapshot, skip)
  }

  // ---------- one cycle ----------

  /** Core's replies in a cycle; a failed poll is None. */
  datatype Poll = Poll(snapshots: Option<seq<Record>>, breaches: Option<seq<Record>>, cutoff: int)

  function Page(reply: Option<seq<Record>>): seq<Record> { if reply.Some? then reply.value else [] }

  function AfterSnapshots(m: Module, poll: Poll): Module {
    IngestedAll(m, ByTime(FilterAfter(Page(poll.snapshots), m.snapshotAfter)), true, TriggeredFrom(m))
  }

  /** The fallback cursor has not passed the cutoff. */
  predicate FallbackDue(m: Module, poll: Poll) { m.breachAfter.None? || m.breachAfter.value < poll.cutoff }

  function AfterBreaches(m: Module, poll: Poll): Module {
    if FallbackDue(m, poll) then
      IngestedAll(m, ByTime(Page(poll.breaches)), false, TriggeredFrom(m) + NamedBy(Page(poll.snapshots)))
    else m
  }

  function AfterIngestion(m: Module, poll: Poll): Module { AfterBreaches(AfterSnapshots(m, poll), poll) }

  function OutcomesFor(runs: map<nat, Outcomes>, k: nat): Outcomes { if k in runs then runs[k] else UNEVENTFUL }

  function AfterDrive(m: Module, runs: map<nat, Outcomes>): Module {
    m.(incidents := map k | k in m.incidents ::
         m.incidents[k].(context := Driven(m.incidents[k].context, OutcomesFor(runs, k))))
  }

  function CycleOf(m: Module, poll: Poll, runs: map<nat, Outcomes>): Module {
    AfterDrive(AfterIngestion(m, poll), runs)
  }

  /** `get_state`: `aged` are the incidents past the retention window. */
  function Saved(m: Module, aged: set<nat>): Module {
    m.(incidents := map k | k in m.incidents &&
      !(Terminal(m.incidents[k].context.state) && k in aged) :: m.incidents[k])
  }

  class RespondModule {
    var snapshotAfter: Time
    var breachAfter: Time
    var incidents: map<nat, Incident>
    var nextId: nat

    /** `restore_state`; with EMPTY, a module that has never run. */
    constructor (from: Module)
      ensures Value() == from
    {
      snapshotAfter, breachAfter, incidents, nextId := from.snapshotAfter, from.breachAfter, from.incidents,
        from.nextId;
    }

    function Value(): Module
      reads this
    {
      Module(snapshotAfter, breachAfter, incidents, nextId)
    }

    method ProcessCycle(poll: Poll, runs: map<nat, Outcomes>)
      modifies this
      ensures Value() == CycleOf(old(Value()), poll, runs)
    {
      var cache := IngestSnapshots(poll);
      IngestOrphanBreaches(poll, cache);
      DriveActiveIncidents(runs);
    }

    method IncidentsTriggeredFrom() returns (seen: set<string>)
      ensures seen == TriggeredFrom(Value())
    {
      seen := {};
      var todo := incidents.Keys;
      while todo != {}
        invariant todo <= incidents.Keys
        invariant seen == set k, t | k in incidents && k !in todo && t in TriggersOf(incidents[k]) :: t
      {
        var k :| k in todo;
        seen := seen + TriggersOf(incidents[k]);
        todo := todo - {k};
      }
    }

    method Ingest(r: Record, fromSnapshot: bool, skip: set<string>)
      modifies this
      ensures Value() == Ingested(old(Value()), r, fromSnapshot, skip)
    {
      if !Usable(r) { return; }
      if r.id.value !in skip && r.opens {
        incidents := incidents[nextId := IncidentOf(r, fromSnapshot)];
        nextId := nextId + 1;
      }
      if fromSnapshot {
        snapshotAfter := r.createdAt;
      } else {
        breachAfter := r.createdAt;
      }
    }

    method IngestSnapshots(poll: Poll) returns (cache: seq<Record>)
      modifies this
      ensures Value() == AfterSnapshots(old(Value()), poll) && cache == Page(poll.snapshots)
    {
      if poll.snapshots.None? { return []; }
      cache := poll.snapshots.value;
      var snapshots := ByTime(FilterAfter(cache, snapshotAfter));
      var triggered := IncidentsTriggeredFrom();
      for i := 0 to |snapshots|
        invariant Value() == IngestedAll(old(Value()), snapshots[..i], true, triggered)
      {
        assert snapshots[..i + 1][..i] == snapshots[..i];
        Ingest(snapshots[i], true, triggered);
      }
      assert snapshots[..|snapshots|] == snapshots;
    }

    method IngestOrphanBreaches(poll: Poll, cache: seq<Record>)
      requires cache == Page(poll.snapshots)
      modifies this
      ensures Value() == AfterBreaches(old(Value()), poll)
    {
      if breachAfter.Some? && breachAfter.value >= poll.cutoff { return; }
      if poll.breaches.None? { return; }
      var snapshotted := BreachIdsWithSnapshots(cache);
      var breaches := ByTime(poll.breaches.value);
      var triggered := IncidentsTriggeredFrom();
      for i := 0 to |breaches|
        invariant Value() == IngestedAll(old(Value()), breaches[..i], false, triggered + snapshotted)
      {
        assert breaches[..i + 1][..i] == breaches[..i];
        Ingest(breaches[i], false, triggered + snapshotted);
      }
      assert breaches[..|breaches|] == breaches;
    }

    method DriveActiveIncidents(runs: map<nat, Outcomes>)
      modifies this`incidents
      ensures Value() == AfterDrive(old(Value()), runs)
    {
      ghost var was := incidents;
      var todo := incidents.Keys;
      while todo != {}
        invariant todo <= incidents.Keys == was.Keys
        invariant forall k :: k in was ==>
                    incidents[k] == if k in todo then was[k]
                      else was[k].(context := Driven(was[k].context, OutcomesFor(runs, k)))
      {
        var k :| k in todo;
        if !Terminal(incidents[k].context.state) && incidents[k].context.state != AwaitingApproval {
          var ctx := new IncidentContext(incidents[k].context);
          Run(ctx, OutcomesFor(runs, k));
          incidents := incidents[k := incidents[k].(context := ctx.Value())];
        }
        todo := todo - {k};
      }
    }
  }

  method BreachIdsWithSnapshots(page: seq<Record>) returns (seen: set<string>)
    ensures seen == NamedBy(page)
  {
    seen := {};
    for i := 0 to |page|
      invariant seen == NamedBy(page[..i])
    {
      var more := set p | p in page[i].parents;
      assert NamedBy(page[..i + 1]) == NamedBy(page[..i]) + more by {
        assert page[..i + 1][i] == page[i];
        forall p | p in NamedBy(page[..i])
          ensures p in NamedBy(page[..i + 1])
        {
          var j :| 0 <= j < i && p in page[j].parents;
          assert page[..i + 1][j] == page[j];
        }
      }
      seen := seen + more;
    }
    assert page[..|page|] == page;
  }
}
