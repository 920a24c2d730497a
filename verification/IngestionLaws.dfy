/** What trigger ingestion keeps across polls, saves, prunings and restarts. */
module IngestionLaws {
  import opened Wrappers
  import opened Incidents
  import opened Pipeline
  import opened Sorting
  import opened Ingestion

  // ---------- pages ----------

  /** Core lists each record once. */
  predicate DifferentIds(q: Record, r: Record) { Usable(q) && Usable(r) ==> q.id != r.id }

  ghost predicate Distinct(page: seq<Record>) { Pairwise(page, DifferentIds) }

  ghost predicate InTimeOrder(rs: seq<Record>) { Ascending(rs, Earlier) }

  lemma {:induction false} FilterKeeps(page: seq<Record>, cursor: Time)
    ensures forall r :: r in FilterAfter(page, cursor) <==> r in page && (cursor.None? || Before(cursor, r.createdAt))
    ensures Distinct(page) ==> Distinct(FilterAfter(page, cursor))
  {
    if |page| > 0 {
      FilterKeeps(page[1..], cursor);
      assert page == [page[0]] + page[1..];
      if Distinct(page) {
        assert Distinct(page[1..]);
        forall r | r in page[1..] && Usable(r) && Usable(page[0])
          ensures r.id != page[0].id
        {
          var j :| 0 <= j < |page[1..]| && page[1..][j] == r;
          assert page[j + 1] == r;
        }
      }
    }
  }

  /** The page in order of creation: a permutation that keeps ids distinct. */
  lemma SortKeeps(page: seq<Record>)
    ensures InTimeOrder(ByTime(page)) && multiset(ByTime(page)) == multiset(page)
    ensures Distinct(page) ==> Distinct(ByTime(page))
    ensures forall r :: r in ByTime(page) <==> r in page
  {
    SortIsSort(page, Earlier);
    if Distinct(page) { SortKeepsPairwise(page, Earlier, DifferentIds); }
  }

  lemma SameIdSameRecord(page: seq<Record>, q: Record, r: Record)
    requires Distinct(page) && q in page && r in page && Usable(q) && Usable(r) && q.id == r.id
    ensures q == r
  {
    var i :| 0 <= i < |page| && page[i] == q;
    var j :| 0 <= j < |page| && page[j] == r;
  }

  // ---------- one page ----------

  ghost predicate Fresh(m: Module) { forall k :: k in m.incidents ==> k < m.nextId }

  /** `k` is a live incident of `m` opened for `id`. */
  predicate IsFor(m: Module, k: nat, fromSnapshot: bool, id: string) {
    k in m.incidents && m.incidents[k].fromSnapshot == fromSnapshot && m.incidents[k].trigger == id
  }

  ghost predicate OpenedBy(inc: Incident, rs: seq<Record>, fromSnapshot: bool, skip: set<string>) {
    exists r :: r in rs && Opens(r, skip) && inc == IncidentOf(r, fromSnapshot)
  }

  /** `m` has an incident for `id` with a key from `first` on. */
  ghost predicate HasFrom(m: Module, first: nat, fromSnapshot: bool, id: string) {
    exists k :: first <= k && IsFor(m, k, fromSnapshot, id)
  }

  /** What a loop over `rs` opens: one incident per uncovered record, in place of no other. */
  ghost predicate Extends(m: Module, m': Module, rs: seq<Record>, fromSnapshot: bool, skip: set<string>) {
    && m.nextId <= m'.nextId && Fresh(m')
    && (forall k :: k in m.incidents ==> k in m'.incidents && m'.incidents[k] == m.incidents[k])
    && (forall k :: k in m'.incidents && k !in m.incidents ==> OpenedBy(m'.incidents[k], rs, fromSnapshot, skip))
    && (forall r :: r in rs && Opens(r, skip) ==> HasFrom(m', m.nextId, fromSnapshot, r.id.value))
  }

  lemma {:induction false} LoopExtends(m: Module, rs: seq<Record>, fromSnapshot: bool, skip: set<string>)
    requires Fresh(m)
    ensures Extends(m, IngestedAll(m, rs, fromSnapshot, skip), rs, fromSnapshot, skip)
  {
    if |rs| > 0 {
      var front, last := rs[..|rs| - 1], rs[|rs| - 1];
      LoopExtends(m, front, fromSnapshot, skip);
      assert rs == front + [last];
      OneMore(m, IngestedAll(m, front, fromSnapshot, skip), front, last, fromSnapshot, skip);
    }
  }

  lemma OneMore(m: Module, m1: Module, front: seq<Record>, r: Record, fromSnapshot: bool, skip: set<string>)
    requires Fresh(m) && Extends(m, m1, front, fromSnapshot, skip)
    ensures Extends(m, Ingested(m1, r, fromSnapshot, skip), front + [r], fromSnapshot, skip)
  {
    hide OpenedBy, HasFrom, IsFor, IncidentOf;
    var m2, rs := Ingested(m1, r, fromSnapshot, skip), front + [r];
    assert forall q :: q in rs <==> q in front || q == r;
    forall k | k in m2.incidents && k !in m.incidents
      ensures OpenedBy(m2.incidents[k], rs, fromSnapshot, skip)
    {
      if k in m1.incidents {
        StillOpenedBy(m1.incidents[k], front, r, fromSnapshot, skip);
      } else {
        JustOpened(m1, r, front, fromSnapshot, skip);
      }
    }
    forall q | q in rs && Opens(q, skip)
      ensures HasFrom(m2, m.nextId, fromSnapshot, q.id.value)
    {
      if q in front {
        StillHas(m1, m2, m.nextId, fromSnapshot, q.id.value);
      } else {
        JustOpened(m1, r, front, fromSnapshot, skip);
      }
    }
  }

  lemma StillOpenedBy(inc: Incident, front: seq<Record>, r: Record, fromSnapshot: bool, skip: set<string>)
    requires OpenedBy(inc, front, fromSnapshot, skip)
    ensures OpenedBy(inc, front + [r], fromSnapshot, skip)
  {
    var q :| q in front && Opens(q, skip) && inc == IncidentOf(q, fromSnapshot);
    assert q in front + [r];
  }

  lemma StillHas(m: Module, m': Module, first: nat, fromSnapshot: bool, id: string)
    requires HasFrom(m, first, fromSnapshot, id)
    requires forall k :: k in m.incidents ==> k in m'.incidents && m'.incidents[k] == m.incidents[k]
    ensures HasFrom(m', first, fromSnapshot, id)
  {
    var k :| first <= k && IsFor(m, k, fromSnapshot, id);
    assert IsFor(m', k, fromSnapshot, id);
  }

  lemma JustOpened(m: Module, r: Record, front: seq<Record>, fromSnapshot: bool, skip: set<string>)
    requires Opens(r, skip)
    ensures var m' := Ingested(m, r, fromSnapshot, skip);
            && m.nextId in m'.incidents && OpenedBy(m'.incidents[m.nextId], front + [r], fromSnapshot, skip)
            && forall first: nat :: first <= m.nextId ==> HasFrom(m', first, fromSnapshot, r.id.value)
  {
    var m' := Ingested(m, r, fromSnapshot, skip);
    assert r in front + [r];
    assert IsFor(m', m.nextId, fromSnapshot, r.id.value);
  }

  /** No two live incidents of one path stem from one id. */
  ghost predicate Unique(m: Module, fromSnapshot: bool) {
    forall k, l, id :: IsFor(m, k, fromSnapshot, id) && IsFor(m, l, fromSnapshot, id) ==> k == l
  }

  lemma {:induction false} LoopKeepsUnique(m: Module, rs: seq<Record>, fromSnapshot: bool, skip: set<string>)
    requires Fresh(m) && Unique(m, fromSnapshot) && Distinct(rs) && TriggeredFrom(m) <= skip
    ensures Unique(IngestedAll(m, rs, fromSnapshot, skip), fromSnapshot)
  {
    hide Ingested, Unique;
    if |rs| > 0 {
      var front, last := rs[..|rs| - 1], rs[|rs| - 1];
      assert Distinct(front);
      LoopKeepsUnique(m, front, fromSnapshot, skip);
      LoopExtends(m, front, fromSnapshot, skip);
      assert rs == front + [last];
      if Opens(last, skip) {
        NotYetOpened(m, IngestedAll(m, front, fromSnapshot, skip), front, last, fromSnapshot, skip);
      }
      OneMoreUnique(IngestedAll(m, front, fromSnapshot, skip), last, fromSnapshot, skip);
    }
  }

  lemma NotYetOpened(m: Module, m1: Module, front: seq<Record>, r: Record, fromSnapshot: bool, skip: set<string>)
    requires Extends(m, m1, front, fromSnapshot, skip) && Distinct(front + [r])
    requires TriggeredFrom(m) <= skip && Opens(r, skip)
    ensures forall k :: !IsFor(m1, k, fromSnapshot, r.id.value)
  {
    forall k | k in m1.incidents && m1.incidents[k].fromSnapshot == fromSnapshot
      ensures m1.incidents[k].trigger != r.id.value
    {
      if k in m.incidents {
        assert m.incidents[k].trigger in TriggersOf(m.incidents[k]);
      } else {
        var q :| q in front && Opens(q, skip) && m1.incidents[k] == IncidentOf(q, fromSnapshot);
        var i :| 0 <= i < |front| && front[i] == q;
        assert (front + [r])[i] == q && (front + [r])[|front|] == r;
      }
    }
  }

  lemma OneMoreUnique(m: Module, r: Record, fromSnapshot: bool, skip: set<string>)
    requires Fresh(m) && Unique(m, fromSnapshot)
    requires Opens(r, skip) ==> forall k :: !IsFor(m, k, fromSnapshot, r.id.value)
    ensures Unique(Ingested(m, r, fromSnapshot, skip), fromSnapshot)
  {
    var m' := Ingested(m, r, fromSnapshot, skip);
    forall k, l, id | IsFor(m', k, fromSnapshot, id) && IsFor(m', l, fromSnapshot, id)
      ensures k == l
    {
      if k in m.incidents && l in m.incidents {
        assert IsFor(m, k, fromSnapshot, id) && IsFor(m, l, fromSnapshot, id);
      } else if k in m.incidents {
        assert IsFor(m, k, fromSnapshot, id);
      } else if l in m.incidents {
        assert IsFor(m, l, fromSnapshot, id);
      }
    }
  }

  /** The other path's incidents are left as they are. */
  lemma LoopKeepsOther(m: Module, rs: seq<Record>, fromSnapshot: bool, skip: set<string>)
    requires Fresh(m) && Unique(m, !fromSnapshot)
    ensures Unique(IngestedAll(m, rs, fromSnapshot, skip), !fromSnapshot)
  {
    LoopExtends(m, rs, fromSnapshot, skip);
    var m', other := IngestedAll(m, rs, fromSnapshot, skip), !fromSnapshot;
    forall k, l, id | IsFor(m', k, other, id) && IsFor(m', l, other, id)
      ensures k == l
    {
      assert IsFor(m, k, other, id) && IsFor(m, l, other, id);
    }
  }

  // ---------- exactly what a poll opens ----------

  /** The incident stems from `b` or its snapshot names it. */
  predicate Covers(inc: Incident, b: string) { inc.trigger == b || b in inc.parents }

  ghost predicate Covered(m: Module, b: string) { exists k :: k in m.incidents && Covers(m.incidents[k], b) }

  lemma CoveredMeans(m: Module)
    ensures forall b :: Covered(m, b) <==> b in TriggeredFrom(m)
  {
    forall b
      ensures Covered(m, b) <==> b in TriggeredFrom(m)
    {
      if Covered(m, b) {
        var k :| k in m.incidents && Covers(m.incidents[k], b);
        assert b in TriggersOf(m.incidents[k]);
      }
      if b in TriggeredFrom(m) {
        var k :| k in m.incidents && b in TriggersOf(m.incidents[k]);
        assert Covers(m.incidents[k], b);
      }
    }
  }

  /** A record with an id and a creation time that an incident can be built from. */
  predicate Acceptable(r: Record) { r.id.Some? && r.id.value != "" && r.createdAt.Some? && r.opens }

  /** Created after the cursor. */
  predicate PastCursor(cursor: Time, r: Record) {
    cursor.None? || (r.createdAt.Some? && r.createdAt.value > cursor.value)
  }

  /** An incident just opened. */
  function NewIncident(fromSnapshot: bool, id: string, parents: seq<string>): Incident {
    Incident(Context(Triggered, None, false, None, None), fromSnapshot, id, parents)
  }

  ghost predicate OpensAs(m: Module, poll: Poll, inc: Incident, r: Record) {
    && r in Page(poll.snapshots) && Acceptable(r) && !Covered(m, r.id.value) && PastCursor(m.snapshotAfter, r)
    && inc == NewIncident(true, r.id.value, r.parents)
  }

  /** MAIN: the snapshot path adds an incident exactly for each page record with an id that is
      created after the cursor and that no live incident covers: new, with the breaches the
      snapshot names. */
  lemma SnapshotIncidents(m: Module, poll: Poll, inc: Incident)
    requires Fresh(m)
    ensures HasIncident(AfterSnapshots(m, poll), m.nextId, inc) <==> exists r :: OpensAs(m, poll, inc, r)
  {
    var page, skip := Page(poll.snapshots), TriggeredFrom(m);
    var rs, m' := ByTime(FilterAfter(page, m.snapshotAfter)), AfterSnapshots(m, poll);
    FilterKeeps(page, m.snapshotAfter);
    SortKeeps(FilterAfter(page, m.snapshotAfter));
    LoopExtends(m, rs, true, skip);
    CoveredMeans(m);
    hide IngestedAll, ByTime, FilterAfter, TriggeredFrom, Covered;
    if HasIncident(m', m.nextId, inc) {
      var k :| m.nextId <= k && k in m'.incidents && m'.incidents[k] == inc;
      var r :| r in rs && Opens(r, skip) && m'.incidents[k] == IncidentOf(r, true);
      assert OpensAs(m, poll, inc, r);
    }
    if r :| OpensAs(m, poll, inc, r) { LoopOpensEach(m, rs, true, skip, r); }
  }

  ghost predicate OpensFor(m: Module, poll: Poll, inc: Incident, r: Record) {
    && (m.breachAfter.None? || m.breachAfter.value < poll.cutoff)
    && r in Page(poll.breaches) && Acceptable(r) && !Covered(m, r.id.value) && !Named(poll, r.id.value)
    && inc == NewIncident(false, r.id.value, [])
  }

  /** A snapshot on the page names `b`. */
  ghost predicate Named(poll: Poll, b: string) { exists r :: r in Page(poll.snapshots) && b in r.parents }

  lemma NamedMeans(poll: Poll)
    ensures forall b :: Named(poll, b) <==> b in NamedBy(Page(poll.snapshots))
  {
    var page := Page(poll.snapshots);
    forall b
      ensures Named(poll, b) <==> b in NamedBy(page)
    {
      if Named(poll, b) {
        var r :| r in page && b in r.parents;
        var i :| 0 <= i < |page| && page[i] == r;
      }
      if b in NamedBy(page) {
        var i :| 0 <= i < |page| && b in page[i].parents;
        assert page[i] in page;
      }
    }
  }

  /** MAIN: the fallback path adds an incident exactly for each listed breach with an id that no
      live incident covers - those opened in this very poll included - and no snapshot on the
      page names, provided its cursor has not passed the cutoff. */
  lemma FallbackIncidents(m: Module, poll: Poll, inc: Incident)
    requires Fresh(m)
    ensures HasIncident(AfterBreaches(m, poll), m.nextId, inc) <==> exists r :: OpensFor(m, poll, inc, r)
  {
    var skip := TriggeredFrom(m) + NamedBy(Page(poll.snapshots));
    var rs, m' := ByTime(Page(poll.breaches)), AfterBreaches(m, poll);
    SortKeeps(Page(poll.breaches));
    LoopExtends(m, rs, false, skip);
    CoveredMeans(m);
    NamedMeans(poll);
    hide IngestedAll, ByTime, TriggeredFrom, NamedBy, Covered, Named;
    if HasIncident(m', m.nextId, inc) {
      var k :| m.nextId <= k && k in m'.incidents && m'.incidents[k] == inc;
      var r :| r in rs && Opens(r, skip) && m'.incidents[k] == IncidentOf(r, false);
      assert OpensFor(m, poll, inc, r);
    }
    if r :| OpensFor(m, poll, inc, r) { LoopOpensEach(m, rs, false, skip, r); }
  }

  /** What is added is driven in the same cycle, by the outcomes meant for it. */
  lemma NewIncidentIsDriven(m: Module, poll: Poll, runs: map<nat, Outcomes>, k: nat)
    requires k in AfterIngestion(m, poll).incidents
    ensures var was, now := AfterIngestion(m, poll).incidents[k], CycleOf(m, poll, runs).incidents;
            && k in now && now[k].fromSnapshot == was.fromSnapshot && now[k].trigger == was.trigger
            && now[k].parents == was.parents
            && now[k].context == Driven(was.context, if k in runs then runs[k] else [QUIET, QUIET, QUIET, QUIET])
  {
  }

  /** Saving drops exactly the finished incidents past their retention. */
  lemma SavedMeans(m: Module, aged: set<nat>, k: nat)
    ensures var s := Saved(m, aged);
            && s.snapshotAfter == m.snapshotAfter && s.breachAfter == m.breachAfter && s.nextId == m.nextId
            && (k in s.incidents <==>
                  k in m.incidents && (k in aged ==> m.incidents[k].context.state !in {Resolved, Escalated, Failed}))
            && (k in s.incidents ==> s.incidents[k] == m.incidents[k])
  {
  }

  // ---------- the cursors ----------

  predicate Dated(r: Record) { r.id.Some? && r.id.value != "" && r.createdAt.Some? }

  /** `cursor` is the latest creation time of the records of `rs` with an id, or `was` without any. */
  ghost predicate IsLatest(cursor: Time, was: Time, rs: seq<Record>) {
    if forall r :: r in rs ==> !Dated(r) then cursor == was
    else
      && (exists r :: r in rs && Dated(r) && r.createdAt == cursor)
      && forall r :: r in rs && Dated(r) ==> r.createdAt.value <= cursor.value
  }

  function CursorOf(m: Module, fromSnapshot: bool): Time { if fromSnapshot then m.snapshotAfter else m.breachAfter }

  lemma {:induction false} LoopCursors(m: Module, rs: seq<Record>, fromSnapshot: bool, skip: set<string>)
    requires InTimeOrder(rs)
    ensures var m' := IngestedAll(m, rs, fromSnapshot, skip);
            && CursorOf(m', !fromSnapshot) == CursorOf(m, !fromSnapshot)
            && IsLatest(CursorOf(m', fromSnapshot), CursorOf(m, fromSnapshot), rs)
  {
    hide IsLatest, Ingested;
    if |rs| > 0 {
      var front, last := rs[..|rs| - 1], rs[|rs| - 1];
      var m1 := IngestedAll(m, front, fromSnapshot, skip);
      LoopCursors(m, front, fromSnapshot, skip);
      assert rs == front + [last];
      OneCursor(m1, last, fromSnapshot, skip);
      LastIsLatest(CursorOf(m1, fromSnapshot), CursorOf(m, fromSnapshot), front, last);
    } else {
      NoneIsLatest(CursorOf(m, fromSnapshot));
    }
  }

  lemma NoneIsLatest(was: Time)
    ensures IsLatest(was, was, [])
  {
  }

  lemma OneCursor(m: Module, r: Record, fromSnapshot: bool, skip: set<string>)
    ensures var m' := Ingested(m, r, fromSnapshot, skip);
            && CursorOf(m', !fromSnapshot) == CursorOf(m, !fromSnapshot)
            && CursorOf(m', fromSnapshot) == if Dated(r) then r.createdAt else CursorOf(m, fromSnapshot)
  {
  }

  lemma LastIsLatest(cursor: Time, was: Time, front: seq<Record>, last: Record)
    requires IsLatest(cursor, was, front) && InTimeOrder(front + [last])
    ensures IsLatest(if Dated(last) then last.createdAt else cursor, was, front + [last])
  {
    var rs := front + [last];
    assert rs[|front|] == last && last in rs;
    forall r | r in front && Dated(r) && Dated(last)
      ensures r.createdAt.value <= last.createdAt.value
    {
      var i :| 0 <= i < |front| && front[i] == r;
      assert rs[i] == r;
    }
    assert forall r :: r in rs <==> r in front || r == last;
  }

  lemma SameLatest(cursor: Time, was: Time, rs: seq<Record>, page: seq<Record>)
    requires IsLatest(cursor, was, rs) && forall r :: r in rs <==> r in page
    ensures IsLatest(cursor, was, page)
  {
  }

  /** After a poll the snapshot cursor is the latest creation time it met past the cursor, and the
      fallback cursor the latest it met if the fallback was due; either stays if it met none. */
  lemma CursorsAdvance(m: Module, poll: Poll)
    ensures var m1, m2 := AfterSnapshots(m, poll), AfterIngestion(m, poll);
            && m1.breachAfter == m.breachAfter && m2.snapshotAfter == m1.snapshotAfter
            && IsLatest(m1.snapshotAfter, m.snapshotAfter, FilterAfter(Page(poll.snapshots), m.snapshotAfter))
            && (forall r :: r in FilterAfter(Page(poll.snapshots), m.snapshotAfter) <==>
                  r in Page(poll.snapshots) && PastCursor(m.snapshotAfter, r))
            && if m.breachAfter.None? || m.breachAfter.value < poll.cutoff
               then IsLatest(m2.breachAfter, m.breachAfter, Page(poll.breaches))
               else m2.breachAfter == m.breachAfter
  {
    var recent, page := FilterAfter(Page(poll.snapshots), m.snapshotAfter), Page(poll.breaches);
    var m1 := AfterSnapshots(m, poll);
    FilterKeeps(Page(poll.snapshots), m.snapshotAfter);
    SortKeeps(recent);
    SortKeeps(page);
    LoopCursors(m, ByTime(recent), true, TriggeredFrom(m));
    SameLatest(m1.snapshotAfter, m.snapshotAfter, ByTime(recent), recent);
    LoopCursors(m1, ByTime(page), false, TriggeredFrom(m1) + NamedBy(Page(poll.snapshots)));
    if FallbackDue(m1, poll) { SameLatest(AfterIngestion(m, poll).breachAfter, m.breachAfter, ByTime(page), page); }
  }

  /** MAIN: the snapshot path opens an incident for exactly the usable page records created
      after the cursor that no live incident covers, and leaves every other incident alone. */
  lemma SnapshotsOpenedExactly(m: Module, poll: Poll, id: string)
    requires Fresh(m)
    ensures HasFrom(AfterSnapshots(m, poll), m.nextId, true, id) <==>
            exists r :: r in Page(poll.snapshots) && Acceptable(r) && !Covered(m, r.id.value) && r.id == Some(id)
                        && PastCursor(m.snapshotAfter, r)
    ensures forall k :: k in m.incidents ==> k in AfterSnapshots(m, poll).incidents
                                             && AfterSnapshots(m, poll).incidents[k] == m.incidents[k]
  {
    hide AfterSnapshots, Covered;
    var m' := AfterSnapshots(m, poll);
    SnapshotsExtend(m, poll);
    if HasFrom(m', m.nextId, true, id) {
      var k :| m.nextId <= k && IsFor(m', k, true, id);
      SnapshotIncidents(m, poll, m'.incidents[k]);
      assert HasIncident(m', m.nextId, m'.incidents[k]);
    }
    forall r | r in Page(poll.snapshots) && Acceptable(r) && !Covered(m, r.id.value) && r.id == Some(id)
               && PastCursor(m.snapshotAfter, r)
      ensures HasFrom(m', m.nextId, true, id)
    {
      var inc := NewIncident(true, id, r.parents);
      assert OpensAs(m, poll, inc, r);
      SnapshotIncidents(m, poll, inc);
      var k :| m.nextId <= k && k in m'.incidents && m'.incidents[k] == inc;
      assert IsFor(m', k, true, id);
    }
  }

  /** MAIN: the fallback opens an incident only for a breach that no live incident covers -
      those opened in this very poll included - and no snapshot on the page names. */
  lemma FallbackOpensOnlyOrphans(m: Module, poll: Poll, k: nat)
    requires Fresh(m) && k in AfterIngestion(m, poll).incidents && k !in AfterSnapshots(m, poll).incidents
    ensures var inc := AfterIngestion(m, poll).incidents[k];
            && !inc.fromSnapshot && !Covered(AfterSnapshots(m, poll), inc.trigger) && !Named(poll, inc.trigger)
            && (m.breachAfter.None? || m.breachAfter.value < poll.cutoff)
            && exists r :: r in Page(poll.breaches) && Acceptable(r) && r.id == Some(inc.trigger)
  {
    var m1 := AfterSnapshots(m, poll);
    CoveredMeans(m1);
    NamedMeans(poll);
    SnapshotsKeepFallbackCursor(m, ByTime(FilterAfter(Page(poll.snapshots), m.snapshotAfter)), TriggeredFrom(m));
    LoopExtends(m, ByTime(FilterAfter(Page(poll.snapshots), m.snapshotAfter)), true, TriggeredFrom(m));
    var skip := TriggeredFrom(m1) + NamedBy(Page(poll.snapshots));
    SortKeeps(Page(poll.breaches));
    LoopExtends(m1, ByTime(Page(poll.breaches)), false, skip);
    var r :| r in ByTime(Page(poll.breaches)) && Opens(r, skip) &&
      AfterIngestion(m, poll).incidents[k] == IncidentOf(r, false);
    assert r in Page(poll.breaches);
  }

  lemma {:induction false} SnapshotsKeepFallbackCursor(m: Module, rs: seq<Record>, skip: set<string>)
    ensures IngestedAll(m, rs, true, skip).breachAfter == m.breachAfter
  {
    if |rs| > 0 { SnapshotsKeepFallbackCursor(m, rs[..|rs| - 1], skip); }
  }

  /** A breach named by a live incident, as its trigger or by its snapshot, is not opened. */
  lemma CoveredBreachStaysCovered(m: Module, poll: Poll, k: nat, b: string)
    requires Fresh(m) && k in m.incidents && (m.incidents[k].trigger == b || b in m.incidents[k].parents)
    ensures !HasFrom(AfterIngestion(m, poll), m.nextId, false, b)
  {
    hide AfterIngestion, AfterSnapshots, TriggeredFrom, NamedBy, FallbackDue;
    var m1, m2 := AfterSnapshots(m, poll), AfterIngestion(m, poll);
    StaysCovered(m, poll, k, b);
    if HasFrom(m2, m.nextId, false, b) {
      var l: nat :| m.nextId <= l && IsFor(m2, l, false, b);
      FallbackOpensOnlyOrphans(m, poll, l);
      CoveredMeans(m1);
    }
  }

  lemma StaysCovered(m: Module, poll: Poll, k: nat, b: string)
    requires Fresh(m) && k in m.incidents && (m.incidents[k].trigger == b || b in m.incidents[k].parents)
    ensures b in TriggeredFrom(AfterSnapshots(m, poll))
    ensures forall l: nat :: m.nextId <= l && l in AfterSnapshots(m, poll).incidents ==>
              !IsFor(AfterIngestion(m, poll), l, false, b)
  {
    var rs := ByTime(FilterAfter(Page(poll.snapshots), m.snapshotAfter));
    var m1 := AfterSnapshots(m, poll);
    LoopExtends(m, rs, true, TriggeredFrom(m));
    assert b in TriggersOf(m1.incidents[k]);
    var skip := TriggeredFrom(m1) + NamedBy(Page(poll.snapshots));
    LoopExtends(m1, ByTime(Page(poll.breaches)), false, skip);
    forall l: nat | m.nextId <= l && l in m1.incidents
      ensures !IsFor(AfterIngestion(m, poll), l, false, b)
    {
      assert OpenedBy(m1.incidents[l], rs, true, TriggeredFrom(m));
    }
  }

  /** A snapshot that appears with a creation time the cursor has reached is never opened. */
  lemma LateSnapshotIsLost(m: Module, poll: Poll, r: Record)
    requires Fresh(m) && Distinct(Page(poll.snapshots)) && r in Page(poll.snapshots) && Usable(r)
    requires m.snapshotAfter.Some? && !Before(m.snapshotAfter, r.createdAt)
    ensures !HasFrom(AfterSnapshots(m, poll), m.nextId, true, r.id.value)
  {
    SnapshotsOpenedExactly(m, poll, r.id.value);
    forall q | q in Page(poll.snapshots) && Usable(q) && q.id == r.id
      ensures !Before(m.snapshotAfter, q.createdAt)
    {
      SameIdSameRecord(Page(poll.snapshots), q, r);
    }
  }

  // ---------- is a breach represented once? ----------

  /** `m` has the incident `inc` under a key from `first` on. */
  ghost predicate HasIncident(m: Module, first: nat, inc: Incident) {
    exists k :: first <= k && k in m.incidents && m.incidents[k] == inc
  }

  /** `m` has an incident from `first` on that stems from breach or snapshot `b` or names it. */
  ghost predicate CoversFrom(m: Module, first: nat, b: string) {
    exists k :: first <= k && k in m.incidents && Covers(m.incidents[k], b)
  }

  /** Every record of a loop that opens has its own incident afterwards. */
  lemma {:induction false} LoopOpensEach(m: Module, rs: seq<Record>, fromSnapshot: bool, skip: set<string>, r: Record)
    requires Fresh(m) && r in rs && Opens(r, skip)
    ensures HasIncident(IngestedAll(m, rs, fromSnapshot, skip), m.nextId, IncidentOf(r, fromSnapshot))
  {
    var front, last := rs[..|rs| - 1], rs[|rs| - 1];
    assert rs == front + [last];
    var m1, m2 := IngestedAll(m, front, fromSnapshot, skip), IngestedAll(m, rs, fromSnapshot, skip);
    LoopExtends(m, front, fromSnapshot, skip);
    if last == r {
      assert m2.incidents[m1.nextId] == IncidentOf(r, fromSnapshot);
    } else {
      LoopOpensEach(m, front, fromSnapshot, skip, r);
      var k :| m.nextId <= k && k in m1.incidents && m1.incidents[k] == IncidentOf(r, fromSnapshot);
      assert k in m2.incidents && m2.incidents[k] == m1.incidents[k];
    }
  }

  /** The snapshot path opens an incident for `r`, which names `b`. */
  ghost predicate OpensNaming(m: Module, poll: Poll, r: Record, b: string) {
    && r in Page(poll.snapshots) && Acceptable(r) && !Covered(m, r.id.value) && (b in r.parents || r.id == Some(b))
    && PastCursor(m.snapshotAfter, r)
  }

  /** The fallback path opens an incident for `b`. */
  ghost predicate OpensFallback(m: Module, poll: Poll, b: string) {
    && (m.breachAfter.None? || m.breachAfter.value < poll.cutoff) && !Covered(m, b) && !Named(poll, b)
    && exists r :: r in Page(poll.breaches) && Acceptable(r) && r.id == Some(b)
  }

  predicate OpensCovering(r: Record, fromSnapshot: bool, skip: set<string>, b: string) {
    Opens(r, skip) && Covers(IncidentOf(r, fromSnapshot), b)
  }

  lemma LoopCoversIff(m: Module, rs: seq<Record>, fromSnapshot: bool, skip: set<string>, b: string)
    requires Fresh(m)
    ensures CoversFrom(IngestedAll(m, rs, fromSnapshot, skip), m.nextId, b) <==>
            exists r :: r in rs && OpensCovering(r, fromSnapshot, skip, b)
  {
    hide IngestedAll, Covers, HasFrom;
    LoopExtends(m, rs, fromSnapshot, skip);
    var m' := IngestedAll(m, rs, fromSnapshot, skip);
    if CoversFrom(m', m.nextId, b) {
      var k :| m.nextId <= k && k in m'.incidents && Covers(m'.incidents[k], b);
      var r :| r in rs && Opens(r, skip) && m'.incidents[k] == IncidentOf(r, fromSnapshot);
      assert OpensCovering(r, fromSnapshot, skip, b);
    }
    if r :| r in rs && OpensCovering(r, fromSnapshot, skip, b) {
      LoopOpensEach(m, rs, fromSnapshot, skip, r);
    }
  }

  lemma SnapshotsCoverIff(m: Module, poll: Poll, b: string)
    requires Fresh(m)
    ensures CoversFrom(AfterSnapshots(m, poll), m.nextId, b) <==> exists r :: OpensNaming(m, poll, r, b)
  {
    hide IngestedAll, ByTime, FilterAfter, TriggeredFrom, CoversFrom, Covered;
    CoveredMeans(m);
    var page, skip := Page(poll.snapshots), TriggeredFrom(m);
    var rs := ByTime(FilterAfter(page, m.snapshotAfter));
    FilterKeeps(page, m.snapshotAfter);
    SortKeeps(FilterAfter(page, m.snapshotAfter));
    LoopCoversIff(m, rs, true, skip, b);
    forall r
      ensures r in rs && OpensCovering(r, true, skip, b) <==> OpensNaming(m, poll, r, b)
    {
    }
  }

  lemma FallbackCoversIff(m: Module, poll: Poll, b: string)
    requires Fresh(m)
    ensures CoversFrom(AfterBreaches(m, poll), m.nextId, b) <==> OpensFallback(m, poll, b)
  {
    hide IngestedAll, ByTime, TriggeredFrom, NamedBy, Covered, Named;
    CoveredMeans(m);
    NamedMeans(poll);
    var skip := TriggeredFrom(m) + NamedBy(Page(poll.snapshots));
    SortKeeps(Page(poll.breaches));
    LoopCoversIff(m, ByTime(Page(poll.breaches)), false, skip, b);
    forall r
      ensures r in ByTime(Page(poll.breaches)) && OpensCovering(r, false, skip, b) <==>
              r in Page(poll.breaches) && Usable(r) && r.opens && r.id == Some(b) && b !in skip
    {
    }
  }

  /** MAIN: a poll opens an incident that covers `b` exactly if a snapshot that names it is
      opened, or the fallback opens it after that. */
  lemma BreachIsTakenUpIff(m: Module, poll: Poll, b: string)
    requires Fresh(m)
    ensures CoversFrom(AfterIngestion(m, poll), m.nextId, b) <==>
            (exists r :: OpensNaming(m, poll, r, b)) || OpensFallback(AfterSnapshots(m, poll), poll, b)
  {
    hide OpensNaming, OpensFallback, Covers, AfterSnapshots, AfterBreaches;
    var m1, m2 := AfterSnapshots(m, poll), AfterIngestion(m, poll);
    SnapshotsCoverIff(m, poll, b);
    SnapshotsExtend(m, poll);
    FallbackCoversIff(m1, poll, b);
    BreachesExtend(m1, poll);
    if CoversFrom(m2, m.nextId, b) {
      var k :| m.nextId <= k && k in m2.incidents && Covers(m2.incidents[k], b);
      if k in m1.incidents { assert CoversFrom(m1, m.nextId, b); } else { assert CoversFrom(m2, m1.nextId, b); }
    }
    if CoversFrom(m1, m.nextId, b) {
      var k :| m.nextId <= k && k in m1.incidents && Covers(m1.incidents[k], b);
      assert k in m2.incidents;
    }
    if CoversFrom(m2, m1.nextId, b) {
      var k :| m1.nextId <= k && k in m2.incidents && Covers(m2.incidents[k], b);
      assert m.nextId <= k;
    }
  }

  /** MAIN: a breach that a live incident covers gets another one exactly if the page has a
      new snapshot naming it, itself not yet opened: the snapshot path does not look at
      breaches, and the fallback never duplicates. */
  lemma SecondIncidentIff(m: Module, poll: Poll, k: nat, b: string)
    requires Fresh(m) && k in m.incidents && Covers(m.incidents[k], b)
    ensures CoversFrom(AfterIngestion(m, poll), m.nextId, b) <==>
              exists r :: OpensNaming(m, poll, r, b) && b in r.parents
    ensures k in AfterIngestion(m, poll).incidents && AfterIngestion(m, poll).incidents[k] == m.incidents[k]
  {
    hide AfterSnapshots, AfterBreaches, CoversFrom;
    var m1 := AfterSnapshots(m, poll);
    BreachIsTakenUpIff(m, poll, b);
    SnapshotsExtend(m, poll);
    BreachesExtend(m1, poll);
    assert Covered(m, b) && Covered(m1, b);
  }

  /** Incidents are added, never changed, and never under an old key. */
  ghost predicate OnlyAdds(m: Module, m': Module) {
    && m.nextId <= m'.nextId && Fresh(m')
    && (forall k :: k in m.incidents ==> k in m'.incidents && m'.incidents[k] == m.incidents[k])
    && (forall k :: k in m'.incidents && k !in m.incidents ==> m.nextId <= k)
  }

  lemma {:induction false} LoopOnlyAdds(m: Module, rs: seq<Record>, fromSnapshot: bool, skip: set<string>)
    requires Fresh(m)
    ensures OnlyAdds(m, IngestedAll(m, rs, fromSnapshot, skip))
  {
    if |rs| > 0 { LoopOnlyAdds(m, rs[..|rs| - 1], fromSnapshot, skip); }
  }

  lemma SnapshotsExtend(m: Module, poll: Poll)
    requires Fresh(m)
    ensures OnlyAdds(m, AfterSnapshots(m, poll))
  {
    LoopOnlyAdds(m, ByTime(FilterAfter(Page(poll.snapshots), m.snapshotAfter)), true, TriggeredFrom(m));
  }

  lemma BreachesExtend(m: Module, poll: Poll)
    requires Fresh(m)
    ensures OnlyAdds(m, AfterBreaches(m, poll))
  {
    LoopOnlyAdds(m, ByTime(Page(poll.breaches)), false, TriggeredFrom(m) + NamedBy(Page(poll.snapshots)));
  }

  // ---------- the snapshot cursor ----------

  lemma {:induction false} LoopAdvances(m: Module, rs: seq<Record>, skip: set<string>)
    requires InTimeOrder(rs) && forall r :: r in rs && Usable(r) ==> NotAfter(m.snapshotAfter, r.createdAt)
    ensures var cursor := IngestedAll(m, rs, true, skip).snapshotAfter;
            && NotAfter(m.snapshotAfter, cursor)
            && (forall r :: r in rs && Usable(r) ==> NotAfter(r.createdAt, cursor))
  {
    if |rs| > 0 {
      var front, last := rs[..|rs| - 1], rs[|rs| - 1];
      LoopAdvances(m, front, skip);
      forall r | r in rs && Usable(r) && Usable(last)
        ensures NotAfter(r.createdAt, last.createdAt)
      {
        var i :| 0 <= i < |rs| && rs[i] == r;
      }
      assert rs == front + [last];
    }
  }

  lemma {:induction false} BreachesLeaveCursor(m: Module, rs: seq<Record>, skip: set<string>)
    ensures IngestedAll(m, rs, false, skip).snapshotAfter == m.snapshotAfter
  {
    if |rs| > 0 { BreachesLeaveCursor(m, rs[..|rs| - 1], skip); }
  }

  /** The records of a page the snapshot path opens, in order. */
  function OpenedOf(rs: seq<Record>, skip: set<string>): seq<Record> {
    if |rs| == 0 then []
    else OpenedOf(rs[..|rs| - 1], skip) + if Opens(rs[|rs| - 1], skip) then [rs[|rs| - 1]] else []
  }

  function NewSnapshots(m: Module, poll: Poll): seq<Record> {
    OpenedOf(ByTime(FilterAfter(Page(poll.snapshots), m.snapshotAfter)), TriggeredFrom(m))
  }

  lemma {:induction false} OpenedOfKeeps(rs: seq<Record>, skip: set<string>)
    ensures forall r :: r in OpenedOf(rs, skip) ==> r in rs && Usable(r)
    ensures Distinct(rs) ==> Distinct(OpenedOf(rs, skip))
  {
    if |rs| > 0 {
      var front, last := rs[..|rs| - 1], rs[|rs| - 1];
      OpenedOfKeeps(front, skip);
      assert rs == front + [last];
      if Distinct(rs) {
        assert Distinct(front);
        forall r | r in OpenedOf(front, skip) && Usable(last)
          ensures r.id != last.id
        {
          var i :| 0 <= i < |front| && front[i] == r;
          assert rs[i] == r;
        }
      }
    }
  }

  lemma {:induction false} OpenedOfMembers(rs: seq<Record>, skip: set<string>)
    ensures forall r :: r in OpenedOf(rs, skip) <==> r in rs && Opens(r, skip)
  {
    if |rs| > 0 {
      OpenedOfMembers(rs[..|rs| - 1], skip);
      assert rs == rs[..|rs| - 1] + [rs[|rs| - 1]];
    }
  }

  /** The log of a poll names exactly the triggers of the incidents it added. */
  lemma LogIsWhatOpened(m: Module, poll: Poll, id: string)
    requires Fresh(m)
    ensures (exists r :: r in NewSnapshots(m, poll) && r.id == Some(id)) <==>
              HasFrom(AfterSnapshots(m, poll), m.nextId, true, id)
  {
    hide AfterSnapshots, NewSnapshots, Covered;
    SnapshotsOpenedExactly(m, poll, id);
    forall r { LoggedIff(m, poll, r); }
  }

  lemma LoggedIff(m: Module, poll: Poll, r: Record)
    ensures r in NewSnapshots(m, poll) <==>
            r in Page(poll.snapshots) && Acceptable(r) && !Covered(m, r.id.value) && PastCursor(m.snapshotAfter, r)
  {
    FilterKeeps(Page(poll.snapshots), m.snapshotAfter);
    SortKeeps(FilterAfter(Page(poll.snapshots), m.snapshotAfter));
    OpenedOfMembers(ByTime(FilterAfter(Page(poll.snapshots), m.snapshotAfter)), TriggeredFrom(m));
    CoveredMeans(m);
    hide OpenedOf, ByTime, FilterAfter, TriggeredFrom, Covered;
  }

  /** A module with the snapshots opened in the history that led to it. */
  datatype Logged = Logged(m: Module, log: seq<Record>)

  /** Core never changes a record: an id has one creation time. */
  ghost predicate Immutable(rs: seq<Record>, times: map<string, int>) {
    forall r :: r in rs && Usable(r) ==> r.id.value in times && r.createdAt.value == times[r.id.value]
  }

  /** Every opened snapshot is at or below the cursor, and none was opened twice. */
  ghost predicate LogOk(l: Logged, times: map<string, int>) {
    && Distinct(l.log) && Immutable(l.log, times)
    && forall r :: r in l.log ==> Usable(r) && NotAfter(r.createdAt, l.m.snapshotAfter)
  }

  lemma SnapshotsKeepLog(l: Logged, poll: Poll, times: map<string, int>)
    requires LogOk(l, times) && Distinct(Page(poll.snapshots)) && Immutable(Page(poll.snapshots), times)
    ensures LogOk(Logged(AfterSnapshots(l.m, poll), l.log + NewSnapshots(l.m, poll)), times)
    ensures NotAfter(l.m.snapshotAfter, AfterSnapshots(l.m, poll).snapshotAfter)
  {
    var page, skip := Page(poll.snapshots), TriggeredFrom(l.m);
    var rs := ByTime(FilterAfter(page, l.m.snapshotAfter));
    FilterKeeps(page, l.m.snapshotAfter);
    SortKeeps(FilterAfter(page, l.m.snapshotAfter));
    LoopAdvances(l.m, rs, skip);
    OpenedOfKeeps(rs, skip);
    forall q, r | q in l.log && r in OpenedOf(rs, skip)
      ensures q.id != r.id
    {
      assert r in page && q.createdAt != r.createdAt;
    }
  }

  lemma BreachesKeepLog(l: Logged, poll: Poll, times: map<string, int>)
    requires LogOk(l, times)
    ensures LogOk(Logged(AfterBreaches(l.m, poll), l.log), times)
    ensures AfterBreaches(l.m, poll).snapshotAfter == l.m.snapshotAfter
  {
    BreachesLeaveCursor(l.m, ByTime(Page(poll.breaches)), TriggeredFrom(l.m) + NamedBy(Page(poll.snapshots)));
  }

  // ---------- what a cycle keeps ----------

  /** Driven to rest, or opened and never driven. */
  ghost predicate Ready(m: Module) {
    forall k :: k in m.incidents ==> Settled(m.incidents[k].context) || m.incidents[k].context == OPENED
  }

  ghost predicate AtRest(m: Module) { forall k :: k in m.incidents ==> Settled(m.incidents[k].context) }

  ghost predicate Good(m: Module) { Fresh(m) && Unique(m, true) && Unique(m, false) && Ready(m) }

  lemma SnapshotsKeepGood(m: Module, poll: Poll)
    requires Good(m) && Distinct(Page(poll.snapshots))
    ensures Good(AfterSnapshots(m, poll))
  {
    hide Unique;
    var page, skip := Page(poll.snapshots), TriggeredFrom(m);
    var rs := ByTime(FilterAfter(page, m.snapshotAfter));
    FilterKeeps(page, m.snapshotAfter);
    SortKeeps(FilterAfter(page, m.snapshotAfter));
    LoopKeepsUnique(m, rs, true, skip);
    LoopKeepsOther(m, rs, true, skip);
    LoopExtends(m, rs, true, skip);
    OnlyOpened(m, AfterSnapshots(m, poll), rs, true, skip);
  }

  lemma BreachesKeepGood(m: Module, poll: Poll)
    requires Good(m) && Distinct(Page(poll.breaches))
    ensures Good(AfterBreaches(m, poll))
  {
    hide Unique;
    var skip := TriggeredFrom(m) + NamedBy(Page(poll.snapshots));
    var rs := ByTime(Page(poll.breaches));
    SortKeeps(Page(poll.breaches));
    LoopKeepsUnique(m, rs, false, skip);
    LoopKeepsOther(m, rs, false, skip);
    LoopExtends(m, rs, false, skip);
    OnlyOpened(m, IngestedAll(m, rs, false, skip), rs, false, skip);
  }

  lemma OnlyOpened(m: Module, m': Module, rs: seq<Record>, fromSnapshot: bool, skip: set<string>)
    requires Extends(m, m', rs, fromSnapshot, skip) && Ready(m)
    ensures Ready(m')
  {
  }

  lemma DriveKeepsGood(m: Module, runs: map<nat, Outcomes>)
    requires Good(m)
    ensures Good(AfterDrive(m, runs)) && AtRest(AfterDrive(m, runs))
    ensures AfterDrive(m, runs).snapshotAfter == m.snapshotAfter
  {
    var m' := AfterDrive(m, runs);
    forall k | k in m.incidents
      ensures Settled(m'.incidents[k].context)
    {
      DrivenOnce(m.incidents[k].context, OutcomesFor(runs, k), OutcomesFor(runs, k));
    }
    forall k, fromSnapshot, id | IsFor(m', k, fromSnapshot, id)
      ensures IsFor(m, k, fromSnapshot, id)
    {
    }
    UniqueFrom(m, m', true);
    UniqueFrom(m, m', false);
  }

  lemma UniqueFrom(m: Module, m': Module, fromSnapshot: bool)
    requires Unique(m, fromSnapshot) && forall k, f, id :: IsFor(m', k, f, id) ==> IsFor(m, k, f, id)
    ensures Unique(m', fromSnapshot)
  {
  }

  lemma SaveKeepsGood(m: Module, aged: set<nat>)
    requires Good(m)
    ensures Good(Saved(m, aged)) && Saved(m, aged).snapshotAfter == m.snapshotAfter
    ensures AtRest(m) ==> AtRest(Saved(m, aged))
  {
    UniqueFrom(m, Saved(m, aged), true);
    UniqueFrom(m, Saved(m, aged), false);
  }

  // ---------- whole runs ----------

  datatype Happening =
    | Ran(poll: Poll, runs: map<nat, Outcomes>)
    | Stalled(poll: Poll)           // the cycle failed after the snapshot path
    | CutShort(poll: Poll, runs: map<nat, Outcomes>, driven: set<nat>)  // only `driven` were driven, if any
    | Persisted(aged: set<nat>)
    | Restarted(corrupt: set<nat>)  // a crash or restart; corrupt incidents are skipped
    | Lost                          // a restart without a readable state

  /** A drive that reaches only some incidents. */
  function DrivenOnly(m: Module, runs: map<nat, Outcomes>, driven: set<nat>): Module {
    m.(incidents := map k | k in m.incidents ::
         if k in driven then AfterDrive(m, runs).incidents[k] else m.incidents[k])
  }

  /** `restore_state` without the incidents it cannot read. */
  function Without(m: Module, corrupt: set<nat>): Module { m.(incidents := m.incidents - corrupt) }

  datatype World = World(now: Logged, saved: Logged)

  const NEW := Logged(EMPTY, [])

  function After(w: World, h: Happening): World {
    match h
    case Ran(poll, runs) => w.(now := Logged(CycleOf(w.now.m, poll, runs), w.now.log + NewSnapshots(w.now.m, poll)))
    case Stalled(poll) => w.(now := Logged(AfterSnapshots(w.now.m, poll), w.now.log + NewSnapshots(w.now.m, poll)))
    case Persisted(aged) => w.(saved := Logged(Saved(w.now.m, aged), w.now.log))
    case CutShort(poll, runs, driven) =>
      w.(now := Logged(DrivenOnly(AfterIngestion(w.now.m, poll), runs, driven),
                       w.now.log + NewSnapshots(w.now.m, poll)))
    case Restarted(corrupt) => w.(now := w.saved.(m := Without(w.saved.m, corrupt)))
    case Lost => w.(now := NEW)
  }

  ghost predicate IsRun(hs: seq<Happening>, worlds: seq<World>) {
    && |worlds| == |hs| + 1 && worlds[0] == World(NEW, NEW)
    && forall i :: 0 <= i < |hs| ==> worlds[i + 1] == After(worlds[i], hs[i])
  }

  ghost predicate HonestPolls(hs: seq<Happening>, times: map<string, int>) {
    forall i :: 0 <= i < |hs| && (hs[i].Ran? || hs[i].Stalled? || hs[i].CutShort?) ==>
      Distinct(Page(hs[i].poll.snapshots)) && Distinct(Page(hs[i].poll.breaches)) &&
        Immutable(Page(hs[i].poll.snapshots), times)
  }

  ghost predicate Sound(l: Logged, times: map<string, int>) { Good(l.m) && LogOk(l, times) }

  lemma IngestionKeepsSound(l: Logged, poll: Poll, times: map<string, int>)
    requires Sound(l, times) && Distinct(Page(poll.snapshots)) && Distinct(Page(poll.breaches))
    requires Immutable(Page(poll.snapshots), times)
    ensures Sound(Logged(AfterIngestion(l.m, poll), l.log + NewSnapshots(l.m, poll)), times)
    ensures NotAfter(l.m.snapshotAfter, AfterIngestion(l.m, poll).snapshotAfter)
  {
    hide Good, Distinct, Immutable, AfterSnapshots, AfterBreaches, NewSnapshots;
    var m1 := AfterSnapshots(l.m, poll);
    SnapshotsKeepLog(l, poll, times);
    SnapshotsKeepGood(l.m, poll);
    BreachesKeepLog(Logged(m1, l.log + NewSnapshots(l.m, poll)), poll, times);
    BreachesKeepGood(m1, poll);
  }

  lemma CycleKeepsSound(l: Logged, poll: Poll, runs: map<nat, Outcomes>, times: map<string, int>)
    requires Sound(l, times) && Distinct(Page(poll.snapshots)) && Distinct(Page(poll.breaches))
    requires Immutable(Page(poll.snapshots), times)
    ensures Sound(Logged(CycleOf(l.m, poll, runs), l.log + NewSnapshots(l.m, poll)), times)
    ensures AtRest(CycleOf(l.m, poll, runs)) && NotAfter(l.m.snapshotAfter, CycleOf(l.m, poll, runs).snapshotAfter)
  {
    hide Good, Distinct, Immutable, AfterIngestion, AfterDrive, AtRest, NewSnapshots;
    IngestionKeepsSound(l, poll, times);
    DriveKeepsGood(AfterIngestion(l.m, poll), runs);
  }

  lemma CutKeepsSound(l: Logged, poll: Poll, runs: map<nat, Outcomes>, driven: set<nat>, times: map<string, int>)
    requires Sound(l, times) && Distinct(Page(poll.snapshots)) && Distinct(Page(poll.breaches))
    requires Immutable(Page(poll.snapshots), times)
    ensures Sound(Logged(DrivenOnly(AfterIngestion(l.m, poll), runs, driven), l.log + NewSnapshots(l.m, poll)), times)
  {
    hide Good, Distinct, Immutable, AfterIngestion, DrivenOnly, NewSnapshots;
    IngestionKeepsSound(l, poll, times);
    DriveOnlyKeepsGood(AfterIngestion(l.m, poll), runs, driven);
  }

  lemma DriveOnlyKeepsGood(m: Module, runs: map<nat, Outcomes>, driven: set<nat>)
    requires Good(m)
    ensures Good(DrivenOnly(m, runs, driven)) && DrivenOnly(m, runs, driven).snapshotAfter == m.snapshotAfter
  {
    hide Driven;
    DriveKeepsGood(m, runs);
    UniqueFrom(m, DrivenOnly(m, runs, driven), true);
    UniqueFrom(m, DrivenOnly(m, runs, driven), false);
  }

  lemma RestoreKeepsSound(l: Logged, corrupt: set<nat>, times: map<string, int>)
    requires Sound(l, times)
    ensures Sound(l.(m := Without(l.m, corrupt)), times)
  {
    UniqueFrom(l.m, Without(l.m, corrupt), true);
    UniqueFrom(l.m, Without(l.m, corrupt), false);
  }

  /** MAIN: across any polls, failed cycles, crashes, restarts and prunings, at most one live
      incident stems from a snapshot and at most one fallback incident from a breach; no
      snapshot is opened twice in the history a state descends from, even once its incident
      is pruned; and every incident is at rest, or has never been driven. */
  lemma {:induction false} EachTriggerOpensOnce(hs: seq<Happening>, worlds: seq<World>, times: map<string, int>, n: nat)
    requires IsRun(hs, worlds) && HonestPolls(hs, times) && n <= |hs|
    ensures Sound(worlds[n].now, times) && Sound(worlds[n].saved, times)
  {
    hide Sound, Distinct, Immutable, CycleOf, NewSnapshots;
    if n == 0 {
      NewIsSound(times);
    } else {
      EachTriggerOpensOnce(hs, worlds, times, n - 1);
      assert worlds[n] == After(worlds[n - 1], hs[n - 1]);
      var l := worlds[n - 1].now;
      match hs[n - 1] {
        case Ran(poll, runs) => CycleKeepsSound(l, poll, runs, times);
        case Stalled(poll) => StallKeepsSound(l, poll, times);
        case Persisted(aged) => SaveKeepsSound(l, aged, times);
        case CutShort(poll, runs, driven) => CutKeepsSound(l, poll, runs, driven, times);
        case Restarted(corrupt) => RestoreKeepsSound(worlds[n - 1].saved, corrupt, times);
        case Lost => NewIsSound(times);
      }
    }
  }

  lemma StallKeepsSound(l: Logged, poll: Poll, times: map<string, int>)
    requires Sound(l, times) && Distinct(Page(poll.snapshots)) && Immutable(Page(poll.snapshots), times)
    ensures Sound(Logged(AfterSnapshots(l.m, poll), l.log + NewSnapshots(l.m, poll)), times)
  {
    hide Good, Distinct, Immutable, AfterSnapshots, NewSnapshots;
    SnapshotsKeepLog(l, poll, times);
    SnapshotsKeepGood(l.m, poll);
  }

  lemma SaveKeepsSound(l: Logged, aged: set<nat>, times: map<string, int>)
    requires Sound(l, times)
    ensures Sound(Logged(Saved(l.m, aged), l.log), times)
  {
    hide Good, Distinct, Immutable;
    SaveKeepsGood(l.m, aged);
  }

  lemma NewIsSound(times: map<string, int>)
    ensures Sound(NEW, times)
  {
  }

  /** After a completed cycle every incident is terminal or waits for approval, and later
      cycles leave its context exactly as it is. */
  lemma RestIsStable(m: Module, poll: Poll, runs: map<nat, Outcomes>, k: nat)
    requires Fresh(m) && k in m.incidents && Settled(m.incidents[k].context)
    ensures k in CycleOf(m, poll, runs).incidents && CycleOf(m, poll, runs).incidents[k] == m.incidents[k]
  {
    var m1 := AfterSnapshots(m, poll);
    LoopExtends(m, ByTime(FilterAfter(Page(poll.snapshots), m.snapshotAfter)), true, TriggeredFrom(m));
    LoopExtends(m1, ByTime(Page(poll.breaches)), false, TriggeredFrom(m1) + NamedBy(Page(poll.snapshots)));
  }
}
