/** Applying a plan twice, and when a plan aborts. */
module PlanLaws {
  import opened Wrappers
  import opened Manifest
  import opened PlanApply

  // ---------- one recommendation, again ----------

  /** The recommendation would be skipped, unchanged, for the reason `kind`. */
  predicate SkipsAs(cfg: Setting, docs: Docs, rec: Rec, kind: Kind) {
    Step(cfg, docs, rec) == Ok((docs, Entry(rec, kind, false)))
  }

  /** What a second application reports for an entry of the first. */
  function Repeated(e: Entry): Entry { Entry(e.rec, if e.applied then AlreadyApplied else e.kind, false) }

  predicate Again(cfg: Setting, docs: Docs, e: Entry) { SkipsAs(cfg, docs, e.rec, Repeated(e).kind) }

  /** The proposed value is recognised once written. */
  predicate Recognised(cfg: Setting, rec: Rec) {
    if Appends(rec) then Matches(rec.proposed, rec.proposed) else Same(cfg.parse, rec.proposed, rec.proposed)
  }

  /** Recognising a value fails exactly for NaN: as the value, a string reading as it, or
      inside the value - or inside the name, for keyed list entries. */
  lemma RecognisedIff(cfg: Setting, rec: Rec)
    ensures Recognised(cfg, rec) <==>
            if Appends(rec) then NaNFree(if Keyed(rec.proposed) then NameOf(rec.proposed) else rec.proposed)
            else
              && NaNFree(rec.proposed)
              && (rec.proposed.Str? && cfg.parse(rec.proposed.s).Some? ==> !cfg.parse(rec.proposed.s).value.NaN?)
  {
    SameSelfIff(cfg.parse, rec.proposed);
    SelfEqualIffNaNFree(rec.proposed);
    if Keyed(rec.proposed) { SelfEqualIffNaNFree(NameOf(rec.proposed)); }
  }

  /** MAIN: a recommendation that was applied is found already applied the next time exactly
      if its proposed value is recognised. */
  lemma AppliedOnceIff(cfg: Setting, docs: Docs, rec: Rec)
    requires Step(cfg, docs, rec).Ok? && Step(cfg, docs, rec).value.1.applied
    ensures SkipsAs(cfg, Step(cfg, docs, rec).value.0, rec, AlreadyApplied) <==> Recognised(cfg, rec)
  {
    var f := FileOf(cfg, docs, rec);
    var p := PathOf(rec);
    assert p != [];
    if Appends(rec) {
      GetAfterAppend(docs[f], p, rec.proposed);
      AppendedContains(docs[f], p, rec.proposed);
    } else {
      GetAfterSet(docs[f], p, rec.proposed);
    }
    assert docs[f := WriteAt(docs[f], p, Appends(rec), rec.proposed).value][f] ==
           WriteAt(docs[f], p, Appends(rec), rec.proposed).value;
    SameDocs(cfg, Step(cfg, docs, rec).value.0, rec);
  }

  lemma SameDocs(cfg: Setting, docs: Docs, rec: Rec)
    ensures Located(cfg, docs, rec) ==> docs[FileOf(cfg, docs, rec) := docs[FileOf(cfg, docs, rec)]] == docs
  {
  }

  lemma AppendedContains(doc: Yaml, p: Path, v: Yaml)
    ensures Contains([v], v) <==> Matches(v, v)
    ensures forall l: seq<Yaml> :: !Contains(l, v) ==> (Contains(l + [v], v) <==> Matches(v, v))
  {
    assert [v][0] == v;
    forall l: seq<Yaml> | !Contains(l, v)
      ensures Contains(l + [v], v) <==> Matches(v, v)
    {
      var m := l + [v];
      assert m[|l|] == v;
      assert forall i :: 0 <= i < |l| ==> m[i] == l[i];
    }
  }

  lemma StepGivesAgain(cfg: Setting, docs: Docs, rec: Rec)
    requires Step(cfg, docs, rec).Ok? && Recognised(cfg, rec)
    ensures var (docs', e) := Step(cfg, docs, rec).value; Again(cfg, docs', e) && e.rec == rec
  {
    if Step(cfg, docs, rec).value.1.applied {
      AppliedOnceIff(cfg, docs, rec);
    } else {
      SameDocs(cfg, docs, rec);
    }
  }

  /** Without --force nothing unexpected is overwritten: a write goes to an absent path, to
      a value that is what the recommendation says it is, or to the end of a list. */
  lemma NoSilentOverwrite(cfg: Setting, docs: Docs, rec: Rec)
    requires !cfg.force && Step(cfg, docs, rec).Ok? && Step(cfg, docs, rec).value.1.applied
    ensures Located(cfg, docs, rec)
    ensures var found := Resolve(docs[FileOf(cfg, docs, rec)], PathOf(rec));
            && (found.None? ==> Appends(rec) || rec.current == Null)
            && (found.Some? && Appends(rec) ==> found.value.List? && !Contains(found.value.items, rec.proposed))
            && (found.Some? && !Appends(rec) ==> !rec.current.Null? && Same(cfg.parse, found.value, rec.current))
  {
  }

  // ---------- what a recommendation is reported as ----------

  /** What its path holds is already as proposed. */
  predicate InPlace(cfg: Setting, found: Yaml, rec: Rec) {
    if Appends(rec) then found.List? && Contains(found.items, rec.proposed) else Same(cfg.parse, found, rec.proposed)
  }

  /** What its path holds is neither what is proposed nor anything the recommendation was made
      for: for an append any list, for a change the current value, for an addition nothing. */
  predicate Unexpected(cfg: Setting, found: Yaml, rec: Rec) {
    && !InPlace(cfg, found, rec)
    && if Appends(rec) then !found.List? else rec.current == Null || !Same(cfg.parse, found, rec.current)
  }

  /** MAIN: what a recommendation is reported as, from what its path holds. */
  lemma ReportedAs(cfg: Setting, docs: Docs, rec: Rec)
    requires Step(cfg, docs, rec).Ok?
    ensures var (docs', e) := Step(cfg, docs, rec).value;
            && e.rec == rec
            && (e.kind == ManifestNotFound <==> !Located(cfg, docs, rec))
            && (Located(cfg, docs, rec) ==>
                  var found := Resolve(docs[FileOf(cfg, docs, rec)], PathOf(rec));
                  && (e.kind == TargetPathMissing <==> found.None? && !Appends(rec) && rec.current != Null)
                  && (e.kind == AlreadyApplied <==> found.Some? && InPlace(cfg, found.value, rec))
                  && (e.kind == DriftDetected <==> found.Some? && Unexpected(cfg, found.value, rec) && !cfg.force))
            && (e.applied <==> e.kind == ApplyClean)
            && (!e.applied ==> docs' == docs)
  {
    SameDocs(cfg, docs, rec);
  }

  /** Applying leaves the proposed value at the path, or the list there, if any, with the item at
      its end. */
  lemma AppliedIsWritten(cfg: Setting, docs: Docs, rec: Rec)
    requires Step(cfg, docs, rec).Ok? && Step(cfg, docs, rec).value.1.applied
    ensures Located(cfg, docs, rec)
    ensures var f, p, docs' := FileOf(cfg, docs, rec), PathOf(rec), Step(cfg, docs, rec).value.0;
            && docs'.Keys == docs.Keys && (forall g :: g in docs && g != f ==> docs'[g] == docs[g])
            && if !Appends(rec) then Resolve(docs'[f], p) == Some(rec.proposed)
               else match Resolve(docs[f], p)
                    case None => Resolve(docs'[f], p) == Some(List([rec.proposed]))
                    case Some(l) => l.List? && Resolve(docs'[f], p) == Some(List(l.items + [rec.proposed]))
  {
    hide WriteAt, Resolve, Same, Contains;
    var doc, p := docs[FileOf(cfg, docs, rec)], PathOf(rec);
    if Appends(rec) { GetAfterAppend(doc, p, rec.proposed); } else { GetAfterSet(doc, p, rec.proposed); }
  }

  /** A changed value that is neither the current nor the proposed one is reported as drift; with
      --force it is overwritten. */
  lemma ChangedValueDrifts(cfg: Setting, docs: Docs, rec: Rec)
    requires Located(cfg, docs, rec) && !Appends(rec) && PathOf(rec) != [] && rec.current != Null
    requires var found := Resolve(docs[FileOf(cfg, docs, rec)], PathOf(rec));
             found.Some? && !Same(cfg.parse, found.value, rec.proposed) && !Same(cfg.parse, found.value, rec.current)
    ensures Step(cfg, docs, rec).Ok?
    ensures var (docs', e) := Step(cfg, docs, rec).value;
            if !cfg.force then docs' == docs && e == Entry(rec, DriftDetected, false)
            else
              && e == Entry(rec, ApplyClean, true)
              && Resolve(docs'[FileOf(cfg, docs, rec)], PathOf(rec)) == Some(rec.proposed)
  {
    StepAbortsIff(cfg, docs, rec);
    ReportedAs(cfg, docs, rec);
    if cfg.force { AppliedIsWritten(cfg, docs, rec); }
  }

  /** A value to change that is not there is reported as missing, with --force or without. */
  lemma MissingIsSkipped(cfg: Setting, docs: Docs, rec: Rec)
    requires Located(cfg, docs, rec) && !Appends(rec) && rec.current != Null
    requires Resolve(docs[FileOf(cfg, docs, rec)], PathOf(rec)).None?
    ensures Step(cfg, docs, rec) == Ok((docs, Entry(rec, TargetPathMissing, false)))
  {
    StepAbortsIff(cfg, docs, rec);
    ReportedAs(cfg, docs, rec);
  }

  // ---------- later writes do not disturb it ----------

  /** Both go to one manifest. */
  predicate SameFile(cfg: Setting, r: Rec, s: Rec) {
    r.service in cfg.manifest && s.service in cfg.manifest && cfg.manifest[r.service] == cfg.manifest[s.service]
  }

  /** No set-path is a prefix of, or equal to, the other's path in the same manifest. */
  predicate Independent(cfg: Setting, r: Rec, s: Rec) {
    SameFile(cfg, r, s) ==>
      && (!Appends(r) ==> !(PathOf(r) <= PathOf(s)))
      && (!Appends(s) ==> !(PathOf(s) <= PathOf(r)))
  }

  /** Classifying depends only on what the path resolves to; here is how a write at an
      independent path may change that. */
  lemma WriteKeepsClass(cfg: Setting, doc: Yaml, r: Rec, s: Rec, kind: Kind)
    requires SameFile(cfg, r, s) && Independent(cfg, r, s)
    requires PathOf(s) != [] && WriteAt(doc, PathOf(s), Appends(s), s.proposed).Ok?
    requires Classify(cfg.parse, Resolve(doc, PathOf(r)), r) == kind && !kind.ApplyClean?
    ensures Classify(cfg.parse, Resolve(WriteAt(doc, PathOf(s), Appends(s), s.proposed).value, PathOf(r)), r) == kind
  {
    var p, q := PathOf(r), PathOf(s);
    var doc' := WriteAt(doc, q, Appends(s), s.proposed).value;
    if Apart(q, p) {
      WriteFrames(doc, q, Appends(s), s.proposed, p);
    } else if p == q {
      GetAfterAppend(doc, q, s.proposed);
      StillContains(Resolve(doc, p), Resolve(doc', p), s.proposed, r.proposed);
    } else if p < q {
      assert Appends(r);
      WriteBelow(doc, q, Appends(s), s.proposed, p);
    } else {
      assert q < p && Appends(s);
      GetAfterAppend(doc, q, s.proposed);
      if Resolve(doc, q).Some? {
        NothingBelowList(doc, q, p);
      } else {
        MissingStaysBelow(doc, q, p);
      }
      NothingBelowList(doc', q, p);
    }
  }

  lemma StillContains(was: Option<Yaml>, now: Option<Yaml>, added: Yaml, v: Yaml)
    requires now.Some? && now.value.List?
    requires was.Some? ==> was.value.List? && now.value.items == was.value.items + [added]
    ensures was.Some? && Contains(was.value.items, v) ==> Contains(now.value.items, v)
  {
    if was.Some? && Contains(was.value.items, v) {
      var i :| 0 <= i < |was.value.items| && Matches(was.value.items[i], v);
      assert now.value.items[i] == was.value.items[i];
    }
  }

  lemma AgainIsClass(cfg: Setting, docs: Docs, e: Entry)
    ensures Again(cfg, docs, e) <==>
            if Located(cfg, docs, e.rec) then
              Classify(cfg.parse, Resolve(docs[FileOf(cfg, docs, e.rec)], PathOf(e.rec)), e.rec) == Repeated(e).kind
              && !Writes(Repeated(e).kind, cfg.force)
            else Repeated(e).kind == ManifestNotFound
  {
    SameDocs(cfg, docs, e.rec);
  }

  lemma StepKeepsAgain(cfg: Setting, docs: Docs, e: Entry, s: Rec)
    requires Again(cfg, docs, e) && Independent(cfg, e.rec, s) && Step(cfg, docs, s).Ok?
    ensures Again(cfg, Step(cfg, docs, s).value.0, e)
  {
    hide Again, Classify;
    var (docs', entry) := Step(cfg, docs, s).value;
    AgainIsClass(cfg, docs, e);
    AgainIsClass(cfg, docs', e);
    if Located(cfg, docs, s) {
      if entry.applied && SameFile(cfg, e.rec, s) {
        WriteKeepsClass(cfg, docs[FileOf(cfg, docs, s)], e.rec, s, Repeated(e).kind);
      } else {
        SameDocs(cfg, docs, s);
      }
    }
  }

  // ---------- a whole plan, again ----------

  ghost predicate AllIndependent(cfg: Setting, recs: seq<Rec>) {
    forall i, j :: 0 <= i < j < |recs| ==> Independent(cfg, recs[i], recs[j])
  }

  ghost predicate AllRecognised(cfg: Setting, recs: seq<Rec>) {
    forall i :: 0 <= i < |recs| ==> Recognised(cfg, recs[i])
  }

  lemma {:induction false} RunKeepsAgain(cfg: Setting, docs: Docs, e: Entry, recs: seq<Rec>)
    requires Again(cfg, docs, e) && (forall j :: 0 <= j < |recs| ==> Independent(cfg, e.rec, recs[j]))
    requires RunOf(cfg, docs, recs).Ok?
    ensures Again(cfg, RunOf(cfg, docs, recs).value.docs, e)
    decreases |recs|
  {
    hide Again, Step, Independent;
    if |recs| > 0 {
      StepKeepsAgain(cfg, docs, e, recs[0]);
      RunKeepsAgain(cfg, Step(cfg, docs, recs[0]).value.0, e, recs[1..]);
    }
  }

  /** At the end of a plan each of its recommendations would be skipped, as `Repeated` says. */
  lemma {:induction false} AllAgain(cfg: Setting, docs: Docs, recs: seq<Rec>)
    requires AllIndependent(cfg, recs) && AllRecognised(cfg, recs) && RunOf(cfg, docs, recs).Ok?
    ensures var o := RunOf(cfg, docs, recs).value;
            && |o.entries| == |recs|
            && forall i :: 0 <= i < |recs| ==> o.entries[i].rec == recs[i] && Again(cfg, o.docs, o.entries[i])
    decreases |recs|
  {
    hide Again, Step, Independent, Recognised;
    if |recs| > 0 {
      var (docs', e) := Step(cfg, docs, recs[0]).value;
      StepGivesAgain(cfg, docs, recs[0]);
      AllAgain(cfg, docs', recs[1..]);
      RunKeepsAgain(cfg, docs', e, recs[1..]);
      var o, o' := RunOf(cfg, docs, recs).value, RunOf(cfg, docs', recs[1..]).value;
      forall i | 0 <= i < |recs|
        ensures o.entries[i].rec == recs[i] && Again(cfg, o.docs, o.entries[i])
      {
        if i > 0 { assert o.entries[i] == o'.entries[i - 1]; }
      }
    }
  }

  lemma {:induction false} RunsWithoutChange(cfg: Setting, docs: Docs, recs: seq<Rec>, entries: seq<Entry>)
    requires |entries| == |recs| && forall i :: 0 <= i < |recs| ==>
               entries[i].rec == recs[i] && Again(cfg, docs, entries[i])
    ensures RunOf(cfg, docs, recs).Ok?
    ensures var o := RunOf(cfg, docs, recs).value;
            o.docs == docs && |o.entries| == |entries| && forall i :: 0 <= i < |entries| ==>
              o.entries[i] == Repeated(entries[i])
    decreases |recs|
  {
    if |recs| > 0 {
      RunsWithoutChange(cfg, docs, recs[1..], entries[1..]);
      assert Step(cfg, docs, recs[0]) == Ok((docs, Repeated(entries[0])));
    }
  }

  /** MAIN: a plan whose set-paths are prefixes of no other path in their manifest, and whose
      proposed values are recognised, changes no document the second time: what was applied
      is already applied, every skip keeps its reason, and the exit code is the same. */
  lemma ApplyingTwiceIsApplyingOnce(cfg: Setting, docs: Docs, recs: seq<Rec>)
    requires AllIndependent(cfg, recs) && AllRecognised(cfg, recs) && RunOf(cfg, docs, recs).Ok?
    ensures var first := RunOf(cfg, docs, recs).value;
            && RunOf(cfg, first.docs, recs).Ok?
            && var second := RunOf(cfg, first.docs, recs).value;
            && second.docs == first.docs && |second.entries| == |first.entries|
            && (forall i :: 0 <= i < |first.entries| ==> second.entries[i] == Repeated(first.entries[i]))
            && ExitOf(second) == ExitOf(first)
  {
    hide Again, Step, ExitOf;
    var first := RunOf(cfg, docs, recs).value;
    AllAgain(cfg, docs, recs);
    RunsWithoutChange(cfg, first.docs, recs, first.entries);
    SameExit(cfg, docs, first.docs, recs);
  }

  lemma SameExit(cfg: Setting, docs: Docs, docs': Docs, recs: seq<Rec>)
    requires RunOf(cfg, docs, recs).Ok? && RunOf(cfg, docs', recs).Ok?
    requires var first, second := RunOf(cfg, docs, recs).value, RunOf(cfg, docs', recs).value;
             |second.entries| == |first.entries| && forall i :: 0 <= i < |first.entries| ==>
               second.entries[i] == Repeated(first.entries[i])
    ensures ExitOf(RunOf(cfg, docs', recs).value) == ExitOf(RunOf(cfg, docs, recs).value)
  {
    hide RunOf, ExitOf;
    var first, second := RunOf(cfg, docs, recs).value, RunOf(cfg, docs', recs).value;
    ExitCodeMeans(cfg, docs, recs);
    ExitCodeMeans(cfg, docs', recs);
    AppliedAreClean(cfg, docs, recs);
    forall i | 0 <= i < |first.entries|
      ensures Clean(second.entries[i]) <==> Clean(first.entries[i])
    {
      assert first.entries[i] in first.entries;
    }
    CleanPointwise(first.entries, second.entries);
  }

  lemma CleanPointwise(a: seq<Entry>, b: seq<Entry>)
    requires |a| == |b| && forall i :: 0 <= i < |a| ==> (Clean(b[i]) <==> Clean(a[i]))
    ensures (forall e :: e in a ==> Clean(e)) <==> (forall e :: e in b ==> Clean(e))
    ensures (forall e :: e in a ==> !Clean(e)) <==> (forall e :: e in b ==> !Clean(e))
  {
    assert forall i :: 0 <= i < |a| ==> a[i] in a && b[i] in b;
  }

  // ---------- what a plan leaves alone ----------

  /** The recommendation of `e` was applied to file `f`. */
  predicate AppliedTo(cfg: Setting, e: Entry, f: string) {
    e.applied && e.rec.service in cfg.manifest && cfg.manifest[e.rec.service] == f
  }

  /** A file is listed as modified iff a recommendation applied to it; all others are as before. */
  lemma {:induction false} OnlyModifiedChange(cfg: Setting, docs: Docs, recs: seq<Rec>, f: string)
    requires RunOf(cfg, docs, recs).Ok?
    ensures var o := RunOf(cfg, docs, recs).value;
            && (f in ModifiedBy(cfg, o.entries) <==> exists e :: e in o.entries && AppliedTo(cfg, e, f))
            && (f !in ModifiedBy(cfg, o.entries) ==>
                  (f in o.docs <==> f in docs) && (f in docs ==> o.docs[f] == docs[f]))
    decreases |recs|
  {
    hide Step;
    var o := RunOf(cfg, docs, recs).value;
    ModifiedMeans(cfg, o.entries, f);
    if |recs| > 0 {
      var (docs', e) := Step(cfg, docs, recs[0]).value;
      OnlyModifiedChange(cfg, docs', recs[1..], f);
      var rest := RunOf(cfg, docs', recs[1..]).value.entries;
      ModifiedMeans(cfg, rest, f);
      assert o.entries == [e] + rest && e in o.entries;
      StepChanges(cfg, docs, recs[0], f);
    }
  }

  lemma ModifiedMeans(cfg: Setting, entries: seq<Entry>, f: string)
    ensures f in ModifiedBy(cfg, entries) <==> exists e :: e in entries && AppliedTo(cfg, e, f)
  {
    if f in ModifiedBy(cfg, entries) {
      var i :| 0 <= i < |entries| && AppliedTo(cfg, entries[i], f);
      assert entries[i] in entries;
    }
    if e :| e in entries && AppliedTo(cfg, e, f) {
      var i :| 0 <= i < |entries| && entries[i] == e;
    }
  }

  lemma StepChanges(cfg: Setting, docs: Docs, rec: Rec, f: string)
    requires Step(cfg, docs, rec).Ok?
    ensures var (docs', e) := Step(cfg, docs, rec).value;
            || AppliedTo(cfg, e, f)
            || ((f in docs' <==> f in docs) && (f in docs ==> docs'[f] == docs[f]))
  {
    SameDocs(cfg, docs, rec);
  }

  // ---------- when a plan aborts ----------

  function KindOf(cfg: Setting, docs: Docs, rec: Rec): Kind
    requires Located(cfg, docs, rec)
  {
    Classify(cfg.parse, Resolve(docs[FileOf(cfg, docs, rec)], PathOf(rec)), rec)
  }

  /** A recommendation that cannot be written: a clean one for the root of the document or
      with a value that is no mapping on the way, a forced one for the root or a list. */
  ghost predicate Aborts(cfg: Setting, docs: Docs, rec: Rec) {
    && Located(cfg, docs, rec)
    && var doc, p := docs[FileOf(cfg, docs, rec)], PathOf(rec);
       match KindOf(cfg, docs, rec)
       case ApplyClean => p == [] || (Resolve(doc, p).None? && Obstructed(doc, p))
       case DriftDetected => cfg.force && (p == [] || Appends(rec))
       case _ => false
  }

  lemma StepAbortsIff(cfg: Setting, docs: Docs, rec: Rec)
    ensures Step(cfg, docs, rec).Err? <==> Aborts(cfg, docs, rec)
  {
    hide WriteAt, Resolve, Same, Contains, Obstructed;
    if Located(cfg, docs, rec) {
      var doc, p := docs[FileOf(cfg, docs, rec)], PathOf(rec);
      if p != [] {
        WriteFailsIff(doc, p, Appends(rec), rec.proposed);
        ObstructedAtRoot(doc, p);
        if Resolve(doc, p).Some? { ResolvedIsUnobstructed(doc, p); }
      }
    }
  }

  /** Recommendation `n` cannot be written to what the ones before it leave. */
  ghost predicate AbortsAt(cfg: Setting, docs: Docs, recs: seq<Rec>, n: nat) {
    && n < |recs| && RunOf(cfg, docs, recs[..n]).Ok?
    && Aborts(cfg, RunOf(cfg, docs, recs[..n]).value.docs, recs[n])
  }

  lemma AbortsOneLater(cfg: Setting, docs: Docs, recs: seq<Rec>, n: nat)
    requires |recs| > 0 && Step(cfg, docs, recs[0]).Ok?
    ensures AbortsAt(cfg, docs, recs, n + 1) <==> AbortsAt(cfg, Step(cfg, docs, recs[0]).value.0, recs[1..], n)
  {
    hide Step, Aborts;
    if n < |recs| - 1 {
      assert recs[..n + 1][0] == recs[0] && recs[..n + 1][1..] == recs[1..][..n];
    }
  }

  /** MAIN: a plan aborts, with nothing written, exactly if one of its recommendations cannot
      be written to what the ones before it leave. */
  lemma {:induction false} PlanAbortsIff(cfg: Setting, docs: Docs, recs: seq<Rec>)
    ensures RunOf(cfg, docs, recs).Err? <==> exists n :: AbortsAt(cfg, docs, recs, n)
    decreases |recs|
  {
    hide Step, Aborts, AbortsAt;
    if |recs| == 0 {
      NothingAborts(cfg, docs);
    } else {
      StepAbortsIff(cfg, docs, recs[0]);
      FirstAborts(cfg, docs, recs);
      if Step(cfg, docs, recs[0]).Ok? {
        var docs' := Step(cfg, docs, recs[0]).value.0;
        PlanAbortsIff(cfg, docs', recs[1..]);
        if n :| AbortsAt(cfg, docs', recs[1..], n) { AbortsOneLater(cfg, docs, recs, n); }
        if n: nat :| AbortsAt(cfg, docs, recs, n) { AbortsOneLater(cfg, docs, recs, n - 1); }
      }
    }
  }

  lemma NothingAborts(cfg: Setting, docs: Docs)
    ensures forall n :: !AbortsAt(cfg, docs, [], n)
  {
  }

  lemma FirstAborts(cfg: Setting, docs: Docs, recs: seq<Rec>)
    requires |recs| > 0
    ensures AbortsAt(cfg, docs, recs, 0) <==> Aborts(cfg, docs, recs[0])
  {
    assert recs[..0] == [];
  }

  /** MAIN: --force applies a drifted recommendation exactly if it sets a path below the root;
      it then reads back, and nothing else has changed. An append to something not a list, or
      a recommendation without a field, takes the whole plan down instead. */
  lemma ForceAppliesIff(cfg: Setting, docs: Docs, rec: Rec)
    requires cfg.force && Located(cfg, docs, rec) && KindOf(cfg, docs, rec) == DriftDetected
    ensures Step(cfg, docs, rec).Ok? <==> !Appends(rec) && PathOf(rec) != []
    ensures Step(cfg, docs, rec).Ok? ==>
              var (docs', entry), f := Step(cfg, docs, rec).value, FileOf(cfg, docs, rec);
              && entry == Entry(rec, ApplyClean, true)
              && docs'.Keys == docs.Keys && (forall g :: g in docs && g != f ==> docs'[g] == docs[g])
              && Resolve(docs'[f], PathOf(rec)) == Some(rec.proposed)
              && forall q :: Apart(PathOf(rec), q) ==> Resolve(docs'[f], q) == Resolve(docs[f], q)
  {
    StepAbortsIff(cfg, docs, rec);
    if Step(cfg, docs, rec).Ok? {
      hide WriteAt, Apart;
      var doc, p := docs[FileOf(cfg, docs, rec)], PathOf(rec);
      GetAfterSet(doc, p, rec.proposed);
      forall q | Apart(p, q)
        ensures Resolve(WriteAt(doc, p, false, rec.proposed).value, q) == Resolve(doc, q)
      {
        WriteFrames(doc, p, false, rec.proposed, q);
      }
    }
  }
}
