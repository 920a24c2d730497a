/** Manifest documents and dotted paths into them (learn/_yaml.py). Documents are values:
    `ApplyAt` is the document after the write. */
module Manifest {
  import opened Wrappers

  /** Floats as reals, with what they cannot be. */
  datatype Number = Fin(r: real) | Inf(positive: bool) | NaN

  datatype Yaml =
    | Null
    | Bool(b: bool)
    | Num(n: Number)
    | Str(s: string)
    | List(items: seq<Yaml>)
    | Map(entries: map<string, Yaml>)

  type Path = seq<string>

  /** A field: its keys, and whether it carries the `[+]` sigil. */
  datatype Field = Field(path: Path, append: bool)

  datatype Error = ValueError | TypeError

  // ---------- fields ----------

  const SIGIL := "[+]"

  function Split(s: string): Path
    ensures |Split(s)| > 0
  {
    if s == "" then [""]
    else
      var rest := Split(s[1..]);
      if s[0] == '.' then [""] + rest else [[s[0]] + rest[0]] + rest[1..]
  }

  function Join(path: Path): string
    requires |path| > 0
  {
    if |path| == 1 then path[0] else path[0] + "." + Join(path[1..])
  }

  /** Splitting loses nothing, so two fields have equal paths only if they are equal. */
  lemma {:induction false} JoinSplit(s: string)
    ensures Join(Split(s)) == s && forall k :: k in Split(s) ==> '.' !in k
  {
    if s != "" {
      JoinSplit(s[1..]);
      var rest := Split(s[1..]);
      assert s == [s[0]] + s[1..];
      if s[0] == '.' {
        assert Split(s)[1..] == rest;
      } else {
        assert Split(s)[1..] == rest[1..];
        assert rest == [rest[0]] + rest[1..];
      }
    }
  }

  function KeysOf(dotted: string): Path { if dotted == "" then [] else Split(dotted) }

  function FieldOf(field: Option<string>): Field {
    if field.None? then Field([], false)
    else if EndsWith(field.value, SIGIL) then Field(KeysOf(field.value[..|field.value| - |SIGIL|]), true)
    else Field(KeysOf(field.value), false)
  }

  lemma {:induction false} SplitJoin(path: Path)
    requires |path| > 0 && forall k :: k in path ==> '.' !in k
    ensures Split(Join(path)) == path
  {
    if |path| == 1 {
      SplitWithoutDots(path[0]);
    } else {
      SplitJoin(path[1..]);
      SplitAtDot(path[0], Join(path[1..]));
      assert path == [path[0]] + path[1..];
    }
  }

  lemma {:induction false} SplitWithoutDots(s: string)
    requires '.' !in s
    ensures Split(s) == [s]
  {
    if s != "" {
      SplitWithoutDots(s[1..]);
      assert s == [s[0]] + s[1..];
    }
  }

  lemma {:induction false} SplitAtDot(key: string, rest: string)
    requires '.' !in key
    ensures Split(key + "." + rest) == [key] + Split(rest)
  {
    var s := key + "." + rest;
    if key == "" {
      assert s[1..] == rest;
    } else {
      SplitAtDot(key[1..], rest);
      assert s[1..] == key[1..] + "." + rest && key == [key[0]] + key[1..];
    }
  }

  /** A field names its keys joined by dots, none for the empty one; "[+]" at its end asks for an
      append and is not part of the last key. */
  lemma FieldMeans(field: string)
    ensures FieldOf(Some(field + "[+]")).append && Spells(FieldOf(Some(field + "[+]")).path, field)
    ensures !EndsWith(field, "[+]") ==> !FieldOf(Some(field)).append && Spells(FieldOf(Some(field)).path, field)
    ensures FieldOf(None) == Field([], false)
  {
    var marked := field + "[+]";
    assert marked[|marked| - 3..] == "[+]" && marked[..|marked| - 3] == field;
    JoinSplit(field);
  }

  predicate Spells(path: Path, field: string) { if field == "" then path == [] else path != [] && Join(path) == field }

  predicate EndsWith(s: string, end: string) { |end| <= |s| && s[|s| - |end|..] == end }

  // ---------- reading and writing ----------

  /** `resolve_path`: None when the path does not resolve. */
  function Resolve(doc: Yaml, path: Path): Option<Yaml> {
    if path == [] then Some(doc)
    else if !doc.Map? || path[0] !in doc.entries then None
    else Resolve(doc.entries[path[0]], path[1..])
  }

  method ResolvePath(doc: Yaml, path: Path) returns (found: Option<Yaml>)
    ensures found == Resolve(doc, path)
  {
    var current := doc;
    for i := 0 to |path|
      invariant Resolve(doc, path) == Resolve(current, path[i..])
    {
      if !current.Map? { return None; }
      if path[i] !in current.entries { return None; }
      current := current.entries[path[i]];
    }
    found := Some(current);
  }

  /** The mapping a write descends into at `key`; a missing one is created. */
  function Child(doc: Yaml, key: string): Yaml
    requires doc.Map?
  {
    if key in doc.entries then doc.entries[key] else Map(map[])
  }

  /** The new leaf: the value itself, or the list with the value appended. */
  function Leaf(doc: Yaml, key: string, append: bool, v: Yaml): Result<Yaml, Error>
    requires doc.Map?
  {
    if !append then Ok(v)
    else if key !in doc.entries then Ok(List([v]))
    else if doc.entries[key].List? then Ok(List(doc.entries[key].items + [v]))
    else Err(TypeError)
  }

  /** A write at a non-empty path of a mapping. */
  function WriteAt(doc: Yaml, path: Path, append: bool, v: Yaml): Result<Yaml, Error>
    requires path != []
    decreases |path|
  {
    if !doc.Map? then Err(TypeError)
    else
      var key := path[0];
      var child := if |path| == 1 then Leaf(doc, key, append, v) else WriteAt(Child(doc, key), path[1..], append, v);
      match child
      case Err(e) => Err(e)
      case Ok(c) => Ok(Map(doc.entries[key := c]))
  }

  /** `apply_at_path`. */
  function ApplyAt(doc: Yaml, field: Field, v: Yaml): Result<Yaml, Error> {
    if field.path == [] && !field.append then Err(ValueError)
    else if !doc.Map? then Err(TypeError)
    else if field.path == [] then Err(ValueError)
    else WriteAt(doc, field.path, field.append, v)
  }

  /** A mapping descended through, and the key taken. */
  datatype Parent = Parent(entries: map<string, Yaml>, key: string)

  /** The document around `y`, from the innermost parent out. */
  function Plug(parents: seq<Parent>, y: Yaml): Yaml {
    if |parents| == 0 then y
    else
      var n := |parents| - 1;
      Plug(parents[..n], Map(parents[n].entries[parents[n].key := y]))
  }

  function PlugResult(parents: seq<Parent>, r: Result<Yaml, Error>): Result<Yaml, Error> {
    match r
    case Err(e) => Err(e)
    case Ok(y) => Ok(Plug(parents, y))
  }

  /** `apply_at_path`: the loop down to the leaf's parent, creating mappings as it goes, the
      write there, and the way back up that updating in place saves the source. */
  method ApplyAtPath(doc: Yaml, field: Field, v: Yaml) returns (r: Result<Yaml, Error>)
    ensures r == ApplyAt(doc, field, v)
  {
    if field.path == [] && !field.append { return Err(ValueError); }
    if !doc.Map? { return Err(TypeError); }
    if field.path == [] { return Err(ValueError); }
    var path, n := field.path, |field.path| - 1;
    var current := doc;
    var parents: seq<Parent> := [];
    for i := 0 to n
      invariant current.Map?
      invariant WriteAt(doc, path, field.append, v) == PlugResult(parents, WriteAt(current, path[i..], field.append, v))
    {
      var key := path[i];
      var child := if key in current.entries then current.entries[key] else Map(map[]);
      Descend(current, path[i..], field.append, v, parents);
      assert path[i..][1..] == path[i + 1..];
      if !child.Map? { return Err(TypeError); }
      parents := parents + [Parent(current.entries, key)];
      current := child;
    }
    var leaf := path[n];
    assert path[n..] == [leaf];
    var written := v;
    if field.append {
      if leaf !in current.entries {
        written := List([v]);
      } else if !current.entries[leaf].List? {
        return Err(TypeError);
      } else {
        written := List(current.entries[leaf].items + [v]);
      }
    }
    var y := Map(current.entries[leaf := written]);
    ghost var all, around := parents, y;
    while parents != []
      invariant Plug(all, around) == Plug(parents, y)
      decreases |parents|
    {
      var last := parents[|parents| - 1];
      y := Map(last.entries[last.key := y]);
      parents := parents[..|parents| - 1];
    }
    r := Ok(y);
  }

  lemma Descend(current: Yaml, path: Path, append: bool, v: Yaml, parents: seq<Parent>)
    requires |path| > 1 && current.Map?
    ensures PlugResult(parents, WriteAt(current, path, append, v)) ==
            PlugResult(parents + [Parent(current.entries, path[0])],
                       WriteAt(Child(current, path[0]), path[1..], append, v))
  {
    var more := parents + [Parent(current.entries, path[0])];
    assert more[..|parents|] == parents;
  }

  // ---------- comparing ----------

  predicate NumEq(a: Number, b: Number) { !a.NaN? && a == b }

  /** Python's `==`, under which True is 1 and NaN equals nothing. */
  predicate PyEq(a: Yaml, b: Yaml)
    decreases a
  {
    match a
    case Null => b.Null?
    case Bool(x) => if b.Num? then NumEq(Fin(if x then 1.0 else 0.0), b.n) else b == a
    case Num(n) => if b.Bool? then NumEq(n, Fin(if b.b then 1.0 else 0.0)) else b.Num? && NumEq(n, b.n)
    case Str(_) => b == a
    case List(xs) => b.List? && |b.items| == |xs| && forall i :: 0 <= i < |xs| ==> PyEq(xs[i], b.items[i])
    case Map(m) => b.Map? && b.entries.Keys == m.Keys && forall k :: k in m ==> PyEq(m[k], b.entries[k])
  }

  predicate NaNFree(v: Yaml) {
    match v
    case Num(n) => !n.NaN?
    case List(xs) => forall i :: 0 <= i < |xs| ==> NaNFree(xs[i])
    case Map(m) => forall k :: k in m ==> NaNFree(m[k])
    case _ => true
  }

  lemma {:induction false} SelfEqualIffNaNFree(v: Yaml)
    ensures PyEq(v, v) <==> NaNFree(v)
    decreases v
  {
    match v {
      case List(xs) =>
        forall i | 0 <= i < |xs|
          ensures PyEq(xs[i], xs[i]) <==> NaNFree(xs[i])
        {
          SelfEqualIffNaNFree(xs[i]);
        }
      case Map(m) =>
        forall k | k in m
          ensures PyEq(m[k], m[k]) <==> NaNFree(m[k])
        {
          SelfEqualIffNaNFree(m[k]);
        }
      case _ =>
    }
  }

  /** A value with its booleans written as the numbers they equal. */
  function Canonical(v: Yaml): Yaml {
    match v
    case Bool(b) => Num(Fin(if b then 1.0 else 0.0))
    case List(xs) => List(seq(|xs|, i requires 0 <= i < |xs| => Canonical(xs[i])))
    case Map(m) => Map(map k | k in m :: Canonical(m[k]))
    case _ => v
  }

  /** Python's `==` holds iff both are written alike once booleans are numbers, and there is no
      NaN: so on values without NaN it is an equivalence. */
  lemma {:induction false} PyEqMeans(a: Yaml, b: Yaml)
    ensures PyEq(a, b) <==> Canonical(a) == Canonical(b) && NaNFree(a)
    decreases a
  {
    match a {
      case List(xs) =>
        if b.List? && |b.items| == |xs| {
          forall i | 0 <= i < |xs|
            ensures PyEq(xs[i], b.items[i]) <==> Canonical(xs[i]) == Canonical(b.items[i]) && NaNFree(xs[i])
          {
            PyEqMeans(xs[i], b.items[i]);
          }
          ListsAlike(xs, b.items);
        } else if b.List? {
          assert |Canonical(a).items| == |xs| && |Canonical(b).items| == |b.items|;
        }
      case Map(m) =>
        if b.Map? && b.entries.Keys == m.Keys {
          forall k | k in m
            ensures PyEq(m[k], b.entries[k]) <==> Canonical(m[k]) == Canonical(b.entries[k]) && NaNFree(m[k])
          {
            PyEqMeans(m[k], b.entries[k]);
          }
          MapsAlike(m, b.entries);
        } else if b.Map? {
          assert Canonical(a).entries.Keys == m.Keys && Canonical(b).entries.Keys == b.entries.Keys;
        }
      case _ =>
    }
  }

  lemma ListsAlike(xs: seq<Yaml>, ys: seq<Yaml>)
    requires |xs| == |ys|
    ensures Canonical(List(xs)) == Canonical(List(ys)) <==>
            forall i :: 0 <= i < |xs| ==> Canonical(xs[i]) == Canonical(ys[i])
  {
    var a, b := Canonical(List(xs)).items, Canonical(List(ys)).items;
    assert forall i :: 0 <= i < |xs| ==> a[i] == Canonical(xs[i]) && b[i] == Canonical(ys[i]);
    if forall i :: 0 <= i < |xs| ==> Canonical(xs[i]) == Canonical(ys[i]) { assert a == b; }
  }

  lemma MapsAlike(m: map<string, Yaml>, n: map<string, Yaml>)
    requires m.Keys == n.Keys
    ensures Canonical(Map(m)) == Canonical(Map(n)) <==> forall k :: k in m ==> Canonical(m[k]) == Canonical(n[k])
  {
    var a, b := Canonical(Map(m)).entries, Canonical(Map(n)).entries;
    assert forall k :: k in m ==> a[k] == Canonical(m[k]) && b[k] == Canonical(n[k]);
    if forall k :: k in m ==> Canonical(m[k]) == Canonical(n[k]) { assert a == b; }
  }

  /** `normalize_scalar`'s results; `parse` is `float` on strings. */
  datatype Norm = BoolScalar(b: bool) | Float(n: Number) | Raw(y: Yaml)

  type Parse = string -> Option<Number>

  function Normalize(parse: Parse, v: Yaml): Norm {
    match v
    case Bool(b) => BoolScalar(b)
    case Num(n) => Float(n)
    case Str(s) => if parse(s).Some? then Float(parse(s).value) else Raw(v)
    case _ => Raw(v)
  }

  predicate Same(parse: Parse, a: Yaml, b: Yaml) {
    match Normalize(parse, a)
    case BoolScalar(x) => Normalize(parse, b) == BoolScalar(x)
    case Float(n) => Normalize(parse, b).Float? && NumEq(n, Normalize(parse, b).n)
    case Raw(x) => Normalize(parse, b).Raw? && PyEq(x, Normalize(parse, b).y)
  }

  /** `v` is the number `n`, or a string that reads as it. */
  predicate Reads(parse: Parse, v: Yaml, n: Number) { v == Num(n) || (v.Str? && parse(v.s) == Some(n)) }

  predicate Numeric(parse: Parse, v: Yaml) { v.Num? || (v.Str? && parse(v.s).Some?) }

  /** Two values count as the same iff they are the same boolean, or read as one number, or are
      neither boolean nor numeric and Python finds them equal: quoting and number style do not
      matter, and a boolean is never a number. */
  lemma SameMeans(parse: Parse, a: Yaml, b: Yaml)
    ensures Same(parse, a, b) <==>
            if a.Bool? || b.Bool? then a == b
            else if Numeric(parse, a) || Numeric(parse, b) then
              exists n: Number :: !n.NaN? && Reads(parse, a, n) && Reads(parse, b, n)
            else PyEq(a, b)
  {
    if !a.Bool? && Numeric(parse, a) {
      var n := if a.Num? then a.n else parse(a.s).value;
      assert Reads(parse, a, n);
    }
  }

  /** Normalised equality is blind to quoting and number style, never equates a bool with a
      number, and relates a value to itself unless it is or reads as NaN. */
  lemma SameSelfIff(parse: Parse, v: Yaml)
    ensures Same(parse, v, v) <==> NaNFree(v) && (v.Str? && parse(v.s).Some? ==> !parse(v.s).value.NaN?)
  {
    SelfEqualIffNaNFree(v);
  }

  function NameOf(item: Yaml): Yaml
    requires item.Map?
  {
    if "name" in item.entries then item.entries["name"] else Null
  }

  predicate Keyed(proposed: Yaml) { proposed.Map? && "name" in proposed.entries }

  /** Does `item` stand for `proposed` in a list? Keyed entries match by name. */
  predicate Matches(item: Yaml, proposed: Yaml) {
    if Keyed(proposed) then item.Map? && PyEq(NameOf(item), NameOf(proposed)) else PyEq(item, proposed)
  }

  /** A mapping with a name stands for every mapping of that name, a missing one counting as null;
      anything else only for what equals it. */
  lemma MatchesMean(item: Yaml, proposed: Yaml)
    ensures Matches(item, proposed) <==>
            if proposed.Map? && "name" in proposed.entries then
              && item.Map?
              && PyEq(if "name" in item.entries then item.entries["name"] else Null, proposed.entries["name"])
            else PyEq(item, proposed)
  {
  }

  predicate Contains(items: seq<Yaml>, proposed: Yaml) { exists i :: 0 <= i < |items| && Matches(items[i], proposed) }

  method ListContainsProposed(items: seq<Yaml>, proposed: Yaml) returns (found: bool)
    ensures found == Contains(items, proposed)
  {
    for i := 0 to |items|
      invariant !Contains(items[..i], proposed)
    {
      if Matches(items[i], proposed) { return true; }
      assert items[..i + 1] == items[..i] + [items[i]];
    }
    assert items[..|items|] == items;
    found := false;
  }

  // ---------- lens laws ----------

  predicate Apart(p: Path, q: Path) { !(p <= q) && !(q <= p) }

  lemma ApartTails(p: Path, q: Path)
    requires p != [] && q != [] && p[0] == q[0] && Apart(p, q)
    ensures Apart(p[1..], q[1..]) && |p| > 1 && |q| > 1
  {
    assert p == [p[0]] + p[1..] && q == [q[0]] + q[1..];
  }

  lemma OneLevel(doc: Yaml, p: Path, append: bool, v: Yaml)
    requires |p| > 1 && WriteAt(doc, p, append, v).Ok?
    ensures WriteAt(Child(doc, p[0]), p[1..], append, v).Ok?
    ensures WriteAt(doc, p, append, v).value ==
              Map(doc.entries[p[0] := WriteAt(Child(doc, p[0]), p[1..], append, v).value])
  {
  }

  /** A written value reads back. */
  lemma {:induction false} GetAfterSet(doc: Yaml, p: Path, v: Yaml)
    requires p != [] && WriteAt(doc, p, false, v).Ok?
    ensures Resolve(WriteAt(doc, p, false, v).value, p) == Some(v)
    decreases |p|
  {
    if |p| > 1 { GetAfterSet(Child(doc, p[0]), p[1..], v); }
  }

  /** Appending leaves the old list, or none, extended by the value. */
  lemma {:induction false} GetAfterAppend(doc: Yaml, p: Path, v: Yaml)
    requires p != [] && WriteAt(doc, p, true, v).Ok?
    ensures match Resolve(doc, p)
            case None => Resolve(WriteAt(doc, p, true, v).value, p) == Some(List([v]))
            case Some(l) => l.List? && Resolve(WriteAt(doc, p, true, v).value, p) == Some(List(l.items + [v]))
    decreases |p|
  {
    if |p| > 1 {
      GetAfterAppend(Child(doc, p[0]), p[1..], v);
      OneLevel(doc, p, true, v);
      ResolveOneLevel(doc, p);
    } else {
      ResolveLast(doc, p);
      ResolveLast(WriteAt(doc, p, true, v).value, p);
    }
  }

  lemma ResolveOneLevel(doc: Yaml, p: Path)
    requires |p| > 1 && doc.Map?
    ensures Resolve(doc, p) == Resolve(Child(doc, p[0]), p[1..])
  {
    if p[0] !in doc.entries { NothingInEmpty(p[1..]); }
  }

  lemma ResolveLast(doc: Yaml, p: Path)
    requires |p| == 1 && doc.Map?
    ensures Resolve(doc, p) == if p[0] in doc.entries then Some(doc.entries[p[0]]) else None
  {
    assert p[1..] == [];
  }

  lemma NothingInEmpty(p: Path)
    requires p != []
    ensures Resolve(Map(map[]), p) == None
  {
  }

  /** Writing back what is there changes nothing. */
  lemma {:induction false} SetWhatIsThere(doc: Yaml, p: Path)
    requires p != [] && Resolve(doc, p).Some?
    ensures WriteAt(doc, p, false, Resolve(doc, p).value) == Ok(doc)
    decreases |p|
  {
    if |p| > 1 { SetWhatIsThere(doc.entries[p[0]], p[1..]); }
    assert doc.entries[p[0] := doc.entries[p[0]]] == doc.entries;
  }

  /** The last of two writes to a path wins. */
  lemma {:induction false} SetTwice(doc: Yaml, p: Path, v: Yaml, w: Yaml)
    requires p != [] && WriteAt(doc, p, false, v).Ok?
    ensures WriteAt(WriteAt(doc, p, false, v).value, p, false, w) == WriteAt(doc, p, false, w)
    decreases |p|
  {
    var doc' := WriteAt(doc, p, false, v).value;
    if |p| > 1 {
      SetTwice(Child(doc, p[0]), p[1..], v, w);
      OneLevel(doc, p, false, v);
      assert Child(doc', p[0]) == WriteAt(Child(doc, p[0]), p[1..], false, v).value;
    }
    var c := if |p| == 1 then Ok(w) else WriteAt(Child(doc, p[0]), p[1..], false, w);
    if c.Ok? { assert doc'.entries[p[0] := c.value] == doc.entries[p[0] := c.value]; }
  }

  lemma FrameAtHead(doc: Yaml, p: Path, append: bool, v: Yaml, q: Path)
    requires p != [] && q != [] && p[0] != q[0] && WriteAt(doc, p, append, v).Ok?
    ensures Resolve(WriteAt(doc, p, append, v).value, q) == Resolve(doc, q)
  {
  }

  lemma FrameOneLevel(doc: Yaml, p: Path, append: bool, v: Yaml, q: Path)
    requires |p| > 1 && |q| > 1 && p[0] == q[0] && WriteAt(doc, p, append, v).Ok?
    requires WriteAt(Child(doc, p[0]), p[1..], append, v).Ok?
    requires Resolve(WriteAt(Child(doc, p[0]), p[1..], append, v).value, q[1..]) == Resolve(Child(doc, p[0]), q[1..])
    ensures Resolve(WriteAt(doc, p, append, v).value, q) == Resolve(doc, q)
  {
    if p[0] !in doc.entries { NothingInEmpty(q[1..]); }
  }

  /** A write leaves every path apart from its own as it was. */
  lemma {:induction false} WriteFrames(doc: Yaml, p: Path, append: bool, v: Yaml, q: Path)
    requires p != [] && WriteAt(doc, p, append, v).Ok? && Apart(p, q)
    ensures Resolve(WriteAt(doc, p, append, v).value, q) == Resolve(doc, q)
    decreases |p|
  {
    assert q != [];
    if p[0] == q[0] {
      ApartTails(p, q);
      OneLevel(doc, p, append, v);
      WriteFrames(Child(doc, p[0]), p[1..], append, v, q[1..]);
      FrameOneLevel(doc, p, append, v, q);
    } else {
      FrameAtHead(doc, p, append, v, q);
    }
  }

  /** A write below `q` leaves a mapping at `q`, which was one before or was absent. */
  lemma {:induction false} WriteBelow(doc: Yaml, p: Path, append: bool, v: Yaml, q: Path)
    requires p != [] && WriteAt(doc, p, append, v).Ok? && q < p
    ensures Resolve(doc, q).None? || Resolve(doc, q).value.Map?
    ensures Resolve(WriteAt(doc, p, append, v).value, q).Some?
    ensures Resolve(WriteAt(doc, p, append, v).value, q).value.Map?
    decreases |p|
  {
    if q != [] {
      WriteBelow(Child(doc, p[0]), p[1..], append, v, q[1..]);
      if p[0] !in doc.entries && q[1..] != [] { NothingInEmpty(q[1..]); }
    }
  }

  /** Below a list nothing resolves. */
  lemma {:induction false} NothingBelowList(doc: Yaml, p: Path, q: Path)
    requires Resolve(doc, p).Some? && Resolve(doc, p).value.List? && p < q
    ensures Resolve(doc, q) == None
    decreases |p|
  {
    if p != [] { NothingBelowList(doc.entries[p[0]], p[1..], q[1..]); }
  }

  /** A path whose parent resolves to nothing or to a non-mapping does not resolve. */
  lemma {:induction false} MissingStaysBelow(doc: Yaml, p: Path, q: Path)
    requires Resolve(doc, p).None? && p <= q
    ensures Resolve(doc, q) == None
    decreases |p|
  {
    if doc.Map? && p[0] in doc.entries { MissingStaysBelow(doc.entries[p[0]], p[1..], q[1..]); }
  }

  /** What a set-write makes of the child it descends into. */
  function NewChild(doc: Yaml, p: Path, v: Yaml): Result<Yaml, Error>
    requires p != [] && doc.Map?
  {
    if |p| == 1 then Ok(v) else WriteAt(Child(doc, p[0]), p[1..], false, v)
  }

  lemma WriteByChild(doc: Yaml, p: Path, v: Yaml)
    requires p != [] && doc.Map?
    ensures WriteAt(doc, p, false, v) ==
            match NewChild(doc, p, v)
            case Ok(c) => Ok(Map(doc.entries[p[0] := c]))
            case Err(e) => Err(e)
  {
  }

  lemma CommuteAtHead(doc: Yaml, p: Path, v: Yaml, q: Path, w: Yaml)
    requires p != [] && q != [] && p[0] != q[0] && doc.Map?
    ensures Commute(doc, p, v, q, w)
  {
    hide WriteAt;
    var a, b := NewChild(doc, p, v), NewChild(doc, q, w);
    WriteByChild(doc, p, v);
    WriteByChild(doc, q, w);
    if a.Ok? {
      var doc' := Map(doc.entries[p[0] := a.value]);
      assert Child(doc', q[0]) == Child(doc, q[0]);
      WriteByChild(doc', q, w);
    }
    if b.Ok? {
      var doc' := Map(doc.entries[q[0] := b.value]);
      assert Child(doc', p[0]) == Child(doc, p[0]);
      WriteByChild(doc', p, v);
    }
    if a.Ok? && b.Ok? {
      assert doc.entries[p[0] := a.value][q[0] := b.value] == doc.entries[q[0] := b.value][p[0] := a.value];
    }
  }

  lemma CommuteOneLevel(doc: Yaml, p: Path, v: Yaml, q: Path, w: Yaml)
    requires |p| > 1 && |q| > 1 && p[0] == q[0] && doc.Map? && Commute(Child(doc, p[0]), p[1..], v, q[1..], w)
    ensures Commute(doc, p, v, q, w)
  {
    var k, child := p[0], Child(doc, p[0]);
    var a, b := WriteAt(child, p[1..], false, v), WriteAt(child, q[1..], false, w);
    if a.Ok? {
      assert Child(Map(doc.entries[k := a.value]), k) == a.value;
      assert WriteAt(doc, p, false, v).value == Map(doc.entries[k := a.value]);
    }
    if b.Ok? {
      assert Child(Map(doc.entries[k := b.value]), k) == b.value;
      assert WriteAt(doc, q, false, w).value == Map(doc.entries[k := b.value]);
    }
    if a.Ok? && b.Ok? {
      var c := WriteAt(a.value, q[1..], false, w).value;
      assert doc.entries[k := a.value][k := c] == doc.entries[k := b.value][k := c];
    }
  }

  ghost predicate Commute(doc: Yaml, p: Path, v: Yaml, q: Path, w: Yaml)
    requires p != [] && q != []
  {
    var a, b := WriteAt(doc, p, false, v), WriteAt(doc, q, false, w);
    && (a.Ok? ==> (WriteAt(a.value, q, false, w).Ok? <==> b.Ok?))
    && (b.Ok? ==> (WriteAt(b.value, p, false, v).Ok? <==> a.Ok?))
    && (a.Ok? && b.Ok? ==> WriteAt(a.value, q, false, w) == WriteAt(b.value, p, false, v))
  }

  /** Writes at paths apart commute, and are possible in one order iff in the other. */
  lemma {:induction false} WritesCommute(doc: Yaml, p: Path, v: Yaml, q: Path, w: Yaml)
    requires p != [] && q != [] && Apart(p, q)
    ensures Commute(doc, p, v, q, w)
    decreases |p|
  {
    assert q != [];
    if doc.Map? {
      if p[0] == q[0] {
        ApartTails(p, q);
        WritesCommute(Child(doc, p[0]), p[1..], v, q[1..], w);
        CommuteOneLevel(doc, p, v, q, w);
      } else {
        CommuteAtHead(doc, p, v, q, w);
      }
    }
  }

  // ---------- when a write fails ----------

  predicate NotMapping(doc: Yaml, p: Path) { Resolve(doc, p).Some? && !Resolve(doc, p).value.Map? }

  /** Something other than a mapping stands on the way to the last key. */
  ghost predicate Obstructed(doc: Yaml, p: Path) { exists n :: 0 <= n < |p| && NotMapping(doc, p[..n]) }

  predicate NotAppendable(doc: Yaml, p: Path) { Resolve(doc, p).Some? && !Resolve(doc, p).value.List? }

  lemma ObstructedBelow(doc: Yaml, p: Path)
    requires |p| > 1 && doc.Map?
    ensures Obstructed(doc, p) <==> Obstructed(Child(doc, p[0]), p[1..])
  {
    var child, rest := Child(doc, p[0]), p[1..];
    if Obstructed(doc, p) {
      var n :| 0 <= n < |p| && NotMapping(doc, p[..n]);
      assert n > 0 && p[..n][1..] == rest[..n - 1];
      if n > 1 { ResolveOneLevel(doc, p[..n]); }
      assert NotMapping(child, rest[..n - 1]);
    }
    if Obstructed(child, rest) {
      var n :| 0 <= n < |rest| && NotMapping(child, rest[..n]);
      assert p[..n + 1][1..] == rest[..n];
      if n > 0 { ResolveOneLevel(doc, p[..n + 1]); }
      assert NotMapping(doc, p[..n + 1]);
    }
  }

  lemma ObstructedAtRoot(doc: Yaml, p: Path)
    requires p != []
    ensures !doc.Map? ==> Obstructed(doc, p)
    ensures |p| == 1 && doc.Map? ==> !Obstructed(doc, p)
  {
    assert p[..0] == [];
    assert !doc.Map? ==> NotMapping(doc, p[..0]);
  }

  /** A write fails exactly if it is obstructed, or is to append to something not a list. */
  lemma {:induction false} WriteFailsIff(doc: Yaml, p: Path, append: bool, v: Yaml)
    requires p != []
    ensures WriteAt(doc, p, append, v).Err? <==> Obstructed(doc, p) || (append && NotAppendable(doc, p))
    decreases |p|
  {
    ObstructedAtRoot(doc, p);
    if doc.Map? && |p| == 1 {
      ResolveLast(doc, p);
    } else if doc.Map? {
      WriteFailsIff(Child(doc, p[0]), p[1..], append, v);
      ObstructedBelow(doc, p);
      ResolveOneLevel(doc, p);
    }
  }

  /** Nothing obstructs a path that resolves, so what is there can be overwritten. */
  lemma {:induction false} ResolvedIsUnobstructed(doc: Yaml, p: Path)
    requires Resolve(doc, p).Some?
    ensures !Obstructed(doc, p)
    decreases |p|
  {
    if |p| > 1 {
      ResolvedIsUnobstructed(doc.entries[p[0]], p[1..]);
      ObstructedBelow(doc, p);
    } else if |p| == 1 {
      ObstructedAtRoot(doc, p);
    }
  }

  /** A missing path is the one error told apart: everything else that stands in the way is of the
      wrong type. */
  lemma ErrorMeans(doc: Yaml, field: Field, v: Yaml)
    ensures ApplyAt(doc, field, v) == Err(ValueError) <==> field.path == [] && (!field.append || doc.Map?)
  {
    if field.path != [] { WritesFailByType(doc, field.path, field.append, v); }
  }

  lemma {:induction false} WritesFailByType(doc: Yaml, p: Path, append: bool, v: Yaml)
    requires p != []
    ensures WriteAt(doc, p, append, v) != Err(ValueError)
    decreases |p|
  {
    if |p| > 1 && doc.Map? { WritesFailByType(Child(doc, p[0]), p[1..], append, v); }
  }
}
