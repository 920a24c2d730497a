/** A plan of set-paths gives the same documents and the same entries in any order. */
module PlanOrder {
  import opened Wrappers
  import opened Manifest
  import opened PlanApply
  import opened PlanLaws

  /** Set-paths apart from each other within a manifest. */
  predicate ApartRecs(cfg: Setting, r: Rec, s: Rec) {
    !Appends(r) && !Appends(s) && (SameFile(cfg, r, s) ==> Apart(PathOf(r), PathOf(s)))
  }

  ghost predicate AllApart(cfg: Setting, recs: seq<Rec>) {
    && (forall i, j :: 0 <= i < j < |recs| ==> ApartRecs(cfg, recs[i], recs[j]))
    && (forall i :: 0 <= i < |recs| ==> !Appends(recs[i]))
  }

  /** Both abort, or both end with the same documents and the same entries up to order. */
  ghost predicate Alike(a: Result<Outcome, Error>, b: Result<Outcome, Error>) {
    if a.Ok? && b.Ok? then a.value.docs == b.value.docs && multiset(a.value.entries) == multiset(b.value.entries)
    else a.Err? && b.Err?
  }

  // ---------- two recommendations ----------

  /** The write, if any, of a recommendation on a document. */
  lemma TreatIs(cfg: Setting, doc: Yaml, rec: Rec)
    requires !Appends(rec) && PathOf(rec) != []
    ensures var kind := Classify(cfg.parse, Resolve(doc, PathOf(rec)), rec);
            Treat(cfg, doc, rec) ==
              if !Writes(kind, cfg.force) then Ok((doc, Entry(rec, kind, false)))
              else match WriteAt(doc, PathOf(rec), false, rec.proposed)
                   case Ok(doc') => Ok((doc', Entry(rec, ApplyClean, true)))
                   case Err(e) => Err(e)
  {
  }

  /** Both orders abort, or both give one document and the same two entries. */
  ghost predicate TreatsCommute(cfg: Setting, doc: Yaml, r: Rec, s: Rec) {
    var a, b := Treat(cfg, doc, r), Treat(cfg, doc, s);
    && (a.Ok? ==> (Treat(cfg, a.value.0, s).Ok? <==> b.Ok?))
    && (b.Ok? ==> (Treat(cfg, b.value.0, r).Ok? <==> a.Ok?))
    && (a.Ok? && b.Ok? ==>
          Treat(cfg, a.value.0, s).value.0 == Treat(cfg, b.value.0, r).value.0 &&
          Treat(cfg, a.value.0, s).value.1 == b.value.1 && Treat(cfg, b.value.0, r).value.1 == a.value.1)
  }

  lemma SwapTreats(cfg: Setting, doc: Yaml, r: Rec, s: Rec)
    requires !Appends(r) && !Appends(s) && Apart(PathOf(r), PathOf(s))
    ensures TreatsCommute(cfg, doc, r, s)
  {
    hide Treat, Classify, WriteAt, Resolve, Apart, Same;
    var p, q := PathOf(r), PathOf(s);
    assert p != [] && q != [] && Apart(q, p) by { NonEmpty(p, q); }
    TreatIs(cfg, doc, r);
    TreatIs(cfg, doc, s);
    WritesCommute(doc, p, r.proposed, q, s.proposed);
    var a, b := WriteAt(doc, p, false, r.proposed), WriteAt(doc, q, false, s.proposed);
    if a.Ok? {
      WriteFrames(doc, p, false, r.proposed, q);
      TreatIs(cfg, a.value, s);
    }
    if b.Ok? {
      WriteFrames(doc, q, false, s.proposed, p);
      TreatIs(cfg, b.value, r);
    }
  }

  lemma NonEmpty(p: Path, q: Path)
    requires Apart(p, q)
    ensures p != [] && q != [] && Apart(q, p)
  {
  }

  ghost predicate StepsCommute(cfg: Setting, docs: Docs, r: Rec, s: Rec) {
    var a, b := Step(cfg, docs, r), Step(cfg, docs, s);
    && (a.Ok? ==> (Step(cfg, a.value.0, s).Ok? <==> b.Ok?))
    && (b.Ok? ==> (Step(cfg, b.value.0, r).Ok? <==> a.Ok?))
    && (a.Ok? && b.Ok? ==>
          Step(cfg, a.value.0, s).value.0 == Step(cfg, b.value.0, r).value.0 &&
          Step(cfg, a.value.0, s).value.1 == b.value.1 && Step(cfg, b.value.0, r).value.1 == a.value.1)
  }

  lemma SwapSteps(cfg: Setting, docs: Docs, r: Rec, s: Rec)
    requires ApartRecs(cfg, r, s)
    ensures StepsCommute(cfg, docs, r, s)
  {
    hide Treat, Apart;
    var a, b := Step(cfg, docs, r), Step(cfg, docs, s);
    if Located(cfg, docs, r) && Located(cfg, docs, s) {
      var f, g := FileOf(cfg, docs, r), FileOf(cfg, docs, s);
      if f == g {
        SwapTreats(cfg, docs[f], r, s);
        if a.Ok? && b.Ok? && Step(cfg, a.value.0, s).Ok? && Step(cfg, b.value.0, r).Ok? {
          OverwrittenTwice(docs, f, Treat(cfg, docs[f], r).value.0, Treat(cfg, docs[f], s).value.0,
                           Treat(cfg, Treat(cfg, docs[f], r).value.0, s).value.0);
        }
      } else if a.Ok? && b.Ok? {
        var d, e := Treat(cfg, docs[f], r).value.0, Treat(cfg, docs[g], s).value.0;
        assert docs[f := d][g := e] == docs[g := e][f := d];
      }
    }
  }

  lemma OverwrittenTwice(docs: Docs, f: string, x: Yaml, y: Yaml, z: Yaml)
    ensures docs[f := x][f := z] == docs[f := y][f := z]
  {
  }

  // ---------- any order ----------

  lemma SwapFirstTwo(cfg: Setting, docs: Docs, r: Rec, s: Rec, rest: seq<Rec>)
    requires ApartRecs(cfg, r, s)
    ensures Alike(RunOf(cfg, docs, [r, s] + rest), RunOf(cfg, docs, [s, r] + rest))
  {
    hide Step;
    SwapSteps(cfg, docs, r, s);
    RunTwo(cfg, docs, r, s, rest);
    RunTwo(cfg, docs, s, r, rest);
  }

  lemma RunTwo(cfg: Setting, docs: Docs, r: Rec, s: Rec, rest: seq<Rec>)
    ensures var all := RunOf(cfg, docs, [r, s] + rest);
            var a := Step(cfg, docs, r);
            if a.Err? || Step(cfg, a.value.0, s).Err? then all.Err?
            else
              var b := Step(cfg, a.value.0, s).value;
              var o := RunOf(cfg, b.0, rest);
              if o.Err? then all.Err?
              else all.Ok? && all.value.docs == o.value.docs &&
                   multiset(all.value.entries) == multiset{a.value.1, b.1} + multiset(o.value.entries)
  {
    hide Step;
    assert ([r, s] + rest)[1..] == [s] + rest && ([s] + rest)[1..] == rest;
    var a := Step(cfg, docs, r);
    if a.Ok? && Step(cfg, a.value.0, s).Ok? {
      var b := Step(cfg, a.value.0, s).value;
      var o := RunOf(cfg, b.0, rest);
      if o.Ok? {
        assert [a.value.1] + ([b.1] + o.value.entries) == [a.value.1, b.1] + o.value.entries;
      }
    }
  }

  lemma AlikeAfter(cfg: Setting, docs: Docs, r: Rec, x: seq<Rec>, y: seq<Rec>)
    requires Step(cfg, docs, r).Ok? ==>
               Alike(RunOf(cfg, Step(cfg, docs, r).value.0, x), RunOf(cfg, Step(cfg, docs, r).value.0, y))
    ensures Alike(RunOf(cfg, docs, [r] + x), RunOf(cfg, docs, [r] + y))
  {
    hide Step;
    assert ([r] + x)[1..] == x && ([r] + y)[1..] == y;
  }

  lemma {:induction false} MoveToFront(cfg: Setting, docs: Docs, recs: seq<Rec>, k: nat)
    requires AllApart(cfg, recs) && k < |recs|
    ensures Alike(RunOf(cfg, docs, recs), RunOf(cfg, docs, [recs[k]] + (recs[..k] + recs[k + 1..])))
    decreases k
  {
    hide Step, RunOf, ApartRecs, AllApart, Alike;
    if k == 0 {
      assert [recs[0]] + (recs[..0] + recs[1..]) == recs;
      AlikeSelf(RunOf(cfg, docs, recs));
    } else {
      var tail := recs[1..];
      assert recs == [recs[0]] + tail;
      ApartTail(cfg, recs, k);
      var moved := [tail[k - 1]] + (tail[..k - 1] + tail[k..]);
      if Step(cfg, docs, recs[0]).Ok? { MoveToFront(cfg, Step(cfg, docs, recs[0]).value.0, tail, k - 1); }
      AlikeAfter(cfg, docs, recs[0], tail, moved);
      var rest := tail[..k - 1] + tail[k..];
      SwapFirstTwo(cfg, docs, recs[0], recs[k], rest);
      assert [recs[0]] + moved == [recs[0], recs[k]] + rest;
      assert [recs[k], recs[0]] + rest == [recs[k]] + (recs[..k] + recs[k + 1..]) by {
        assert recs[..k] == [recs[0]] + tail[..k - 1];
      }
      AlikeChains(RunOf(cfg, docs, recs), RunOf(cfg, docs, [recs[0]] + moved),
                  RunOf(cfg, docs, [recs[k]] + (recs[..k] + recs[k + 1..])));
    }
  }

  lemma ApartTail(cfg: Setting, recs: seq<Rec>, k: nat)
    requires AllApart(cfg, recs) && 0 < k < |recs|
    ensures AllApart(cfg, recs[1..]) && ApartRecs(cfg, recs[0], recs[k])
  {
    hide ApartRecs;
  }

  lemma AlikeSelf(a: Result<Outcome, Error>)
    ensures Alike(a, a)
  {
  }

  lemma AlikeChains(a: Result<Outcome, Error>, b: Result<Outcome, Error>, c: Result<Outcome, Error>)
    requires Alike(a, b) && Alike(b, c)
    ensures Alike(a, c)
  {
  }

  /** MAIN: a plan with only set-paths, apart from each other in each manifest, aborts in
      every order or in none; otherwise every order gives the same documents, the same
      entries and the same exit code. */
  lemma {:induction false} OrderDoesNotMatter(cfg: Setting, docs: Docs, recs: seq<Rec>, recs': seq<Rec>)
    requires AllApart(cfg, recs) && multiset(recs) == multiset(recs')
    ensures Alike(RunOf(cfg, docs, recs), RunOf(cfg, docs, recs'))
    decreases |recs|
  {
    hide Step, RunOf, ApartRecs, AllApart, Alike;
    assert |recs| == |multiset(recs)| == |multiset(recs')| == |recs'|;
    if |recs| == 0 {
      assert recs == recs';
      AlikeSelf(RunOf(cfg, docs, recs));
    } else {
      var h, tail' := recs'[0], recs'[1..];
      assert recs' == [h] + tail';
      var k := TakeOut(recs, h, tail');
      var rest := recs[..k] + recs[k + 1..];
      WithoutOne(cfg, recs, k);
      MoveToFront(cfg, docs, recs, k);
      if Step(cfg, docs, h).Ok? { OrderDoesNotMatter(cfg, Step(cfg, docs, h).value.0, rest, tail'); }
      AlikeAfter(cfg, docs, h, rest, tail');
      AlikeChains(RunOf(cfg, docs, recs), RunOf(cfg, docs, [h] + rest), RunOf(cfg, docs, recs'));
    }
  }

  lemma TakeOut(recs: seq<Rec>, h: Rec, tail: seq<Rec>) returns (k: nat)
    requires multiset(recs) == multiset([h] + tail)
    ensures k < |recs| && recs[k] == h && multiset(recs[..k] + recs[k + 1..]) == multiset(tail)
  {
    assert h in multiset([h] + tail);
    assert h in recs;
    k :| 0 <= k < |recs| && recs[k] == h;
    TakeOne(recs, k);
    var a, b := multiset(recs[..k] + recs[k + 1..]), multiset(tail);
    assert multiset([h] + tail) == b + multiset{h};
    assert a == (a + multiset{h}) - multiset{h} && b == (b + multiset{h}) - multiset{h};
  }

  lemma TakeOne(recs: seq<Rec>, k: nat)
    requires k < |recs|
    ensures multiset(recs) == multiset(recs[..k] + recs[k + 1..]) + multiset{recs[k]}
  {
    assert recs == recs[..k] + ([recs[k]] + recs[k + 1..]);
  }

  lemma WithoutOne(cfg: Setting, recs: seq<Rec>, k: nat)
    requires AllApart(cfg, recs) && k < |recs|
    ensures AllApart(cfg, recs[..k] + recs[k + 1..])
  {
    hide ApartRecs;
    var rest := recs[..k] + recs[k + 1..];
    forall i | 0 <= i < |rest|
      ensures rest[i] == recs[if i < k then i else i + 1]
    {
    }
  }

  /** Plans that end alike exit alike. */
  lemma AlikeExit(cfg: Setting, docs: Docs, recs: seq<Rec>, recs': seq<Rec>)
    requires RunOf(cfg, docs, recs).Ok? && RunOf(cfg, docs, recs').Ok?
    requires Alike(RunOf(cfg, docs, recs), RunOf(cfg, docs, recs'))
    ensures ExitOf(RunOf(cfg, docs, recs).value) == ExitOf(RunOf(cfg, docs, recs').value)
  {
    hide RunOf, ExitOf, Clean;
    var a, b := RunOf(cfg, docs, recs).value.entries, RunOf(cfg, docs, recs').value.entries;
    ExitCodeMeans(cfg, docs, recs);
    ExitCodeMeans(cfg, docs, recs');
    assert forall e :: e in a <==> e in multiset(a);
    assert forall e :: e in b <==> e in multiset(b);
    assert |a| == |multiset(a)| == |multiset(b)| == |b|;
  }

  // ---------- where the conditions matter ----------

  /** Two changes of one value applied in a row: the second time the first of them finds
      drift, so the exit code gets worse although nothing changed. */
  lemma ChainedChangeDrifts(cfg: Setting, docs: Docs, r: Rec, s: Rec)
    requires !cfg.force && Located(cfg, docs, r) && SameFile(cfg, r, s) && !Appends(r) && !Appends(s)
    requires PathOf(r) == PathOf(s) != [] && Resolve(docs[FileOf(cfg, docs, r)], PathOf(r)).None?
    requires r.current.Null? && !s.current.Null? && Same(cfg.parse, r.proposed, s.current)
    requires !Same(cfg.parse, r.proposed, s.proposed) && !Same(cfg.parse, s.proposed, r.proposed)
    requires RunOf(cfg, docs, [r, s]).Ok?
    ensures var o := RunOf(cfg, docs, [r, s]).value;
            && o.entries == [Entry(r, ApplyClean, true), Entry(s, ApplyClean, true)]
            && SkipsAs(cfg, o.docs, r, DriftDetected)
  {
    var f, p := FileOf(cfg, docs, r), PathOf(r);
    RunPair(cfg, docs, r, s);
    var doc1 := WriteAt(docs[f], p, false, r.proposed).value;
    GetAfterSet(docs[f], p, r.proposed);
    var docs1 := docs[f := doc1];
    assert Step(cfg, docs, r) == Ok((docs1, Entry(r, ApplyClean, true)));
    var doc2 := WriteAt(doc1, p, false, s.proposed).value;
    assert Step(cfg, docs1, s) == Ok((docs1[f := doc2], Entry(s, ApplyClean, true)));
    GetAfterSet(doc1, p, s.proposed);
    SameDocs(cfg, docs1[f := doc2], r);
  }

  lemma RunPair(cfg: Setting, docs: Docs, r: Rec, s: Rec)
    requires RunOf(cfg, docs, [r, s]).Ok?
    ensures Step(cfg, docs, r).Ok? && Step(cfg, Step(cfg, docs, r).value.0, s).Ok?
    ensures var a := Step(cfg, docs, r).value;
            var b := Step(cfg, a.0, s).value;
            RunOf(cfg, docs, [r, s]) == Ok(Outcome(b.0, [a.1, b.1]))
  {
    hide Step;
    assert [r, s][1..] == [s];
    var a := Step(cfg, docs, r).value;
    RunOne(cfg, a.0, s);
    assert [a.1] + [Step(cfg, a.0, s).value.1] == [a.1, Step(cfg, a.0, s).value.1];
  }

  lemma RunOne(cfg: Setting, docs: Docs, r: Rec)
    ensures RunOf(cfg, docs, [r]).Ok? <==> Step(cfg, docs, r).Ok?
    ensures Step(cfg, docs, r).Ok? ==>
              RunOf(cfg, docs, [r]) == Ok(Outcome(Step(cfg, docs, r).value.0, [Step(cfg, docs, r).value.1]))
  {
    hide Step;
    assert [r][1..] == [];
    if Step(cfg, docs, r).Ok? {
      var a := Step(cfg, docs, r).value;
      assert RunOf(cfg, a.0, []) == Ok(Outcome(a.0, []));
      assert [a.1] + [] == [a.1];
    }
  }
}
