/** Applying a plan to the manifests (learn/_yaml.py: `classify_outcome`; learn/_apply.py:
    `apply_recommendations`, `exit_code`). */
module PlanApply {
  import opened Wrappers
  import opened Manifest

  /** `current` is Null for a recommendation that adds a value. */
  datatype Rec = Rec(id: string, service: string, field: Option<string>, current: Yaml, proposed: Yaml)

  datatype Kind = ApplyClean | AlreadyApplied | TargetPathMissing | DriftDetected | ManifestNotFound

  datatype Entry = Entry(rec: Rec, kind: Kind, applied: bool)

  type Docs = map<string, Yaml>

  /** `float` on strings, which manifest file serves a service, and the --force flag. */
  datatype Setting = Setting(parse: Parse, manifest: map<string, string>, force: bool)

  // ---------- one recommendation ----------

  function PathOf(rec: Rec): Path { FieldOf(rec.field).path }

  predicate Appends(rec: Rec) { FieldOf(rec.field).append }

  /** `classify_outcome`. */
  function Classify(parse: Parse, found: Option<Yaml>, rec: Rec): Kind {
    if Appends(rec) then
      if found.None? then ApplyClean
      else if !found.value.List? then DriftDetected
      else if Contains(found.value.items, rec.proposed) then AlreadyApplied
      else ApplyClean
    else if rec.current.Null? then
      if found.None? then ApplyClean
      else if Same(parse, found.value, rec.proposed) then AlreadyApplied
      else DriftDetected
    else
      if found.None? then TargetPathMissing
      else if Same(parse, found.value, rec.proposed) then AlreadyApplied
      else if Same(parse, found.value, rec.current) then ApplyClean
      else DriftDetected
  }

  predicate Writes(kind: Kind, force: bool) { kind.ApplyClean? || (kind.DriftDetected? && force) }

  /** What a recommendation makes of its document. */
  function Treat(cfg: Setting, doc: Yaml, rec: Rec): Result<(Yaml, Entry), Error> {
    var kind := Classify(cfg.parse, Resolve(doc, PathOf(rec)), rec);
    if Writes(kind, cfg.force) then
      match ApplyAt(doc, FieldOf(rec.field), rec.proposed)
      case Ok(doc') => Ok((doc', Entry(rec, ApplyClean, true)))
      case Err(e) => Err(e)
    else Ok((doc, Entry(rec, kind, false)))
  }

  predicate Located(cfg: Setting, docs: Docs, rec: Rec) {
    rec.service in cfg.manifest && cfg.manifest[rec.service] in docs
  }

  function FileOf(cfg: Setting, docs: Docs, rec: Rec): string
    requires Located(cfg, docs, rec)
  {
    cfg.manifest[rec.service]
  }

  function Step(cfg: Setting, docs: Docs, rec: Rec): Result<(Docs, Entry), Error> {
    if !Located(cfg, docs, rec) then Ok((docs, Entry(rec, ManifestNotFound, false)))
    else
      match Treat(cfg, docs[FileOf(cfg, docs, rec)], rec)
      case Ok((doc, entry)) => Ok((docs[FileOf(cfg, docs, rec) := doc], entry))
      case Err(e) => Err(e)
  }

  // ---------- a plan ----------

  datatype Outcome = Outcome(docs: Docs, entries: seq<Entry>)

  /** A whole plan; an error of any write aborts it with nothing written. */
  function RunOf(cfg: Setting, docs: Docs, recs: seq<Rec>): Result<Outcome, Error> {
    if |recs| == 0 then Ok(Outcome(docs, []))
    else
      match Step(cfg, docs, recs[0])
      case Err(e) => Err(e)
      case Ok((docs', entry)) =>
        match RunOf(cfg, docs', recs[1..])
        case Err(e) => Err(e)
        case Ok(o) => Ok(Outcome(o.docs, [entry] + o.entries))
  }

  /** The entries of a plan's result list: the applied ones, or the skipped ones. */
  function Select(entries: seq<Entry>, applied: bool): seq<Entry> {
    if |entries| == 0 then []
    else Select(entries[..|entries| - 1], applied) +
         if entries[|entries| - 1].applied == applied then [entries[|entries| - 1]] else []
  }

  datatype Applied = Applied(applied: seq<Entry>, skipped: seq<Entry>, modified: set<string>, files: Docs)

  function ModifiedBy(cfg: Setting, entries: seq<Entry>): set<string> {
    set i | 0 <= i < |entries| && entries[i].applied && entries[i].rec.service in cfg.manifest
      :: cfg.manifest[entries[i].rec.service]
  }

  /** `apply_recommendations`: classify and write in memory, then write the modified files. */
  method ApplyRecommendations(cfg: Setting, files: Docs, recs: seq<Rec>) returns (r: Result<Applied, Error>)
    ensures r.Ok? <==> RunOf(cfg, files, recs).Ok?
    ensures r.Ok? ==>
      var o := RunOf(cfg, files, recs).value;
      && r.value.files == o.docs
      && r.value.applied == Select(o.entries, true) && r.value.skipped == Select(o.entries, false)
      && r.value.modified == ModifiedBy(cfg, o.entries)
  {
    hide RunOf, Treat, Select, ModifiedBy, Continues;
    var cache: Docs := map[];
    var modified, applied, skipped := {}, [], [];
    ghost var entries := [];
    Nothing(cfg, files, recs);
    for i := 0 to |recs|
      invariant cache.Keys <= files.Keys && modified <= cache.Keys
      invariant forall f :: f in cache && f !in modified ==> cache[f] == files[f]
      invariant Continues(cfg, files, recs, files + cache, recs[i..], entries)
      invariant applied == Select(entries, true) && skipped == Select(entries, false)
      invariant modified == ModifiedBy(cfg, entries)
    {
      var rec := recs[i];
      ghost var docs := files + cache;
      assert recs[i..][0] == rec && recs[i..][1..] == recs[i + 1..];
      var entry;
      if rec.service !in cfg.manifest || cfg.manifest[rec.service] !in files {
        entry := Entry(rec, ManifestNotFound, false);
      } else {
        var file := cfg.manifest[rec.service];
        if file !in cache { cache := cache[file := files[file]]; }
        assert files + cache == docs;
        var treated := ApplyOne(cfg, cache[file], rec);
        if treated.Err? {
          Abort(cfg, files, recs, docs, recs[i..], entries);
          return Err(treated.error);
        }
        entry := treated.value.1;
        TreatedEntry(cfg, cache[file], rec);
        cache := cache[file := treated.value.0];
        if entry.applied { modified := modified + {file}; }
        assert files + cache == docs[file := treated.value.0];
      }
      if entry.applied { applied := applied + [entry]; } else { skipped := skipped + [entry]; }
      Continue(cfg, files, recs, docs, recs[i..], entries, files + cache, entry);
      SelectOneMore(cfg, entries, entry);
      entries := entries + [entry];
    }
    assert recs[|recs|..] == [];
    Finished(cfg, files, recs, files + cache, entries);
    var files' := WriteAll(files, cache, modified);
    r := Ok(Applied(applied, skipped, modified, files'));
  }

  method ApplyOne(cfg: Setting, doc: Yaml, rec: Rec) returns (r: Result<(Yaml, Entry), Error>)
    ensures r == Treat(cfg, doc, rec)
  {
    var found := ResolvePath(doc, PathOf(rec));
    var kind := Classify(cfg.parse, found, rec);
    if kind == ApplyClean || (kind == DriftDetected && cfg.force) {
      var written := ApplyAtPath(doc, FieldOf(rec.field), rec.proposed);
      if written.Err? { return Err(written.error); }
      return Ok((written.value, Entry(rec, ApplyClean, true)));
    }
    r := Ok((doc, Entry(rec, kind, false)));
  }

  /** The write phase. */
  method WriteAll(files: Docs, cache: Docs, modified: set<string>) returns (files': Docs)
    requires modified <= cache.Keys <= files.Keys && forall f :: f in cache && f !in modified ==> cache[f] == files[f]
    ensures files' == files + cache
  {
    files' := files;
    var todo := modified;
    while todo != {}
      invariant todo <= modified && files'.Keys == files.Keys
      invariant forall f :: f in files' ==> files'[f] == if f in modified && f !in todo then cache[f] else files[f]
    {
      var file :| file in todo;
      files' := files'[file := cache[file]];
      todo := todo - {file};
    }
  }

  lemma TreatedEntry(cfg: Setting, doc: Yaml, rec: Rec)
    requires Treat(cfg, doc, rec).Ok?
    ensures var (doc', entry) := Treat(cfg, doc, rec).value;
            entry.rec == rec && (!entry.applied ==> doc' == doc)
  {
  }

  lemma Nothing(cfg: Setting, files: Docs, recs: seq<Rec>)
    ensures Continues(cfg, files, recs, files + map[], recs[0..], [])
    ensures Select([], true) == Select([], false) == [] && ModifiedBy(cfg, []) == {}
  {
    assert files + map[] == files && recs[0..] == recs;
    if RunOf(cfg, files, recs).Ok? {
      assert [] + RunOf(cfg, files, recs).value.entries == RunOf(cfg, files, recs).value.entries;
    }
  }

  lemma Abort(cfg: Setting, files: Docs, recs: seq<Rec>, docs: Docs, rest: seq<Rec>, entries: seq<Entry>)
    requires |rest| > 0 && Continues(cfg, files, recs, docs, rest, entries) && Step(cfg, docs, rest[0]).Err?
    ensures RunOf(cfg, files, recs).Err?
  {
  }

  lemma Finished(cfg: Setting, files: Docs, recs: seq<Rec>, docs: Docs, entries: seq<Entry>)
    requires Continues(cfg, files, recs, docs, [], entries)
    ensures RunOf(cfg, files, recs) == Ok(Outcome(docs, entries))
  {
    assert entries + [] == entries;
  }

  /** Having produced `entries` and reached `docs`, the rest of the plan completes it. */
  ghost predicate Continues(cfg: Setting, files: Docs, recs: seq<Rec>, docs: Docs, rest: seq<Rec>,
                            entries: seq<Entry>) {
    match RunOf(cfg, docs, rest)
    case Err(e) => RunOf(cfg, files, recs) == Err(e)
    case Ok(o) => RunOf(cfg, files, recs) == Ok(Outcome(o.docs, entries + o.entries))
  }

  lemma Continue(cfg: Setting, files: Docs, recs: seq<Rec>, docs: Docs, rest: seq<Rec>, entries: seq<Entry>,
                 docs': Docs, entry: Entry)
    requires |rest| > 0 && Continues(cfg, files, recs, docs, rest, entries)
    requires Step(cfg, docs, rest[0]) == Ok((docs', entry))
    ensures Continues(cfg, files, recs, docs', rest[1..], entries + [entry])
  {
    var o := RunOf(cfg, docs', rest[1..]);
    if o.Ok? { assert entries + ([entry] + o.value.entries) == entries + [entry] + o.value.entries; }
  }

  lemma SelectOneMore(cfg: Setting, entries: seq<Entry>, entry: Entry)
    ensures forall applied :: Select(entries + [entry], applied) ==
              Select(entries, applied) + if entry.applied == applied then [entry] else []
    ensures ModifiedBy(cfg, entries + [entry]) ==
            ModifiedBy(cfg, entries) +
            if entry.applied && entry.rec.service in cfg.manifest then {cfg.manifest[entry.rec.service]} else {}
  {
    assert (entries + [entry])[..|entries|] == entries;
    var all := entries + [entry];
    forall f | f in ModifiedBy(cfg, entries)
      ensures f in ModifiedBy(cfg, all)
    {
      var i :| 0 <= i < |entries| && entries[i].applied && entries[i].rec.service in cfg.manifest
               && cfg.manifest[entries[i].rec.service] == f;
      assert all[i] == entries[i];
    }
    assert all[|entries|] == entry;
  }

  // ---------- the exit code ----------

  predicate Clean(e: Entry) { e.kind.ApplyClean? || e.kind.AlreadyApplied? }

  /** `exit_code`. */
  function ExitCode(applied: seq<Entry>, skipped: seq<Entry>): int {
    if applied == [] && skipped == [] then 0
    else
      var failures := exists i :: 0 <= i < |skipped| && !skipped[i].kind.AlreadyApplied?;
      var allClean := forall i :: 0 <= i < |applied| ==> applied[i].kind.ApplyClean?;
      if allClean && !failures then 0
      else if ((exists i :: 0 <= i < |applied| && applied[i].kind.ApplyClean?) ||
               (exists i :: 0 <= i < |skipped| && skipped[i].kind.AlreadyApplied?)) && failures then 1
      else 2
  }

  function ExitOf(o: Outcome): int { ExitCode(Select(o.entries, true), Select(o.entries, false)) }

  lemma {:induction false} SelectMembers(entries: seq<Entry>, applied: bool)
    ensures forall e :: e in Select(entries, applied) <==> e in entries && e.applied == applied
  {
    if |entries| > 0 {
      SelectMembers(entries[..|entries| - 1], applied);
      assert entries == entries[..|entries| - 1] + [entries[|entries| - 1]];
    }
  }

  /** The two lists share out the entries. */
  lemma {:induction false} SelectSharesOut(entries: seq<Entry>)
    ensures multiset(Select(entries, true)) + multiset(Select(entries, false)) == multiset(entries)
  {
    if |entries| > 0 {
      var front, last := entries[..|entries| - 1], entries[|entries| - 1];
      SelectSharesOut(front);
      assert entries == front + [last];
      SelectLast(front, last, true);
      SelectLast(front, last, false);
      hide Select;
    }
  }

  lemma SelectLast(front: seq<Entry>, last: Entry, applied: bool)
    ensures Select(front + [last], applied) ==
            if last.applied == applied then Select(front, applied) + [last] else Select(front, applied)
  {
    assert (front + [last])[..|front|] == front;
  }

  lemma {:induction false} AppliedAreClean(cfg: Setting, docs: Docs, recs: seq<Rec>)
    requires RunOf(cfg, docs, recs).Ok?
    ensures forall e :: e in RunOf(cfg, docs, recs).value.entries && e.applied ==> e.kind.ApplyClean?
    ensures forall e :: e in RunOf(cfg, docs, recs).value.entries && !e.applied ==> !e.kind.ApplyClean?
  {
    if |recs| > 0 {
      AppliedAreClean(cfg, Step(cfg, docs, recs[0]).value.0, recs[1..]);
    }
  }

  lemma AppliedIsClean(entries: seq<Entry>)
    requires forall e :: e in entries && e.applied ==> e.kind.ApplyClean?
    ensures forall e :: e in entries && e.applied ==> Clean(e)
  {
  }

  lemma ExitCodeByMembers(applied: seq<Entry>, skipped: seq<Entry>)
    requires forall e :: e in applied ==> e.kind.ApplyClean?
    requires forall e :: e in skipped ==> !e.kind.ApplyClean?
    ensures var code := ExitCode(applied, skipped);
            && (code == 0 <==> forall e :: e in skipped ==> Clean(e))
            && (code == 2 <==> applied == [] && skipped != [] && forall e :: e in skipped ==> !Clean(e))
            && code in {0, 1, 2}
  {
    assert forall i :: 0 <= i < |applied| ==> applied[i] in applied;
    assert forall i :: 0 <= i < |skipped| ==> skipped[i] in skipped;
    if applied != [] { assert applied[0].kind.ApplyClean?; }
    if ExitCode(applied, skipped) == 2 {
      forall e | e in skipped
        ensures !Clean(e)
      {
        var i :| 0 <= i < |skipped| && skipped[i] == e;
      }
    } else if applied == [] && skipped != [] && ExitCode(applied, skipped) == 0 {
      assert Clean(skipped[0]);
    } else if applied == [] && skipped != [] {
      var i :| 0 <= i < |skipped| && skipped[i].kind.AlreadyApplied?;
      assert Clean(skipped[i]);
    }
  }

  /** MAIN: the exit code of a plan is 0 iff every recommendation is in place, 2 iff the plan
      is not empty and none is, and 1 otherwise. */
  lemma ExitCodeMeans(cfg: Setting, docs: Docs, recs: seq<Rec>)
    requires RunOf(cfg, docs, recs).Ok?
    ensures var o := RunOf(cfg, docs, recs).value;
            && (ExitOf(o) == 0 <==> forall e :: e in o.entries ==> Clean(e))
            && (ExitOf(o) == 2 <==> o.entries != [] && forall e :: e in o.entries ==> !Clean(e))
            && ExitOf(o) in {0, 1, 2}
  {
    hide RunOf, Select, ExitCode, Clean;
    var o := RunOf(cfg, docs, recs).value;
    AppliedAreClean(cfg, docs, recs);
    assert forall e :: e in o.entries && e.applied ==> Clean(e) by { AppliedIsClean(o.entries); }
    SelectMembers(o.entries, true);
    SelectMembers(o.entries, false);
    ExitCodeByMembers(Select(o.entries, true), Select(o.entries, false));
    var applied, skipped := Select(o.entries, true), Select(o.entries, false);
    if applied != [] { assert applied[0] in applied; }
    if skipped != [] { assert skipped[0] in skipped; }
    if o.entries != [] { assert o.entries[0] in applied || o.entries[0] in skipped; }
    assert (forall e :: e in skipped ==> Clean(e)) <==> (forall e :: e in o.entries ==> Clean(e));
    assert applied == [] ==> forall e :: e in o.entries ==> e in skipped;
    assert applied != [] ==> Clean(applied[0]);
  }
}
