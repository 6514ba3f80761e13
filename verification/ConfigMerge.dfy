/** Layered configuration: deep merge of documents, and where each effective value came from. */
module ConfigMerge {
  import opened Outcomes

  type Key = string

  /** Everything but a mapping is replaced as a whole. */
  datatype Json = Scalar(value: int) | Sequence(items: seq<Json>) | Mapping(entries: map<Key, Json>)

  /* ---------- merging ---------- */

  function Merge(target: Json, overlay: Json): (merged: Json)
    requires target.Mapping? && overlay.Mapping?
    ensures merged.Mapping?
    decreases overlay, 0
  {
    Mapping(map k | k in target.entries.Keys + overlay.entries.Keys ::
              if k !in overlay.entries then target.entries[k]
              else if k in target.entries && target.entries[k].Mapping? && overlay.entries[k].Mapping?
              then Merge(target.entries[k], overlay.entries[k])
              else overlay.entries[k])
  }

  function Lookup(j: Json, path: seq<Key>): Option<Json> {
    if path == [] then Some(j)
    else if j.Mapping? && path[0] in j.entries then Lookup(j.entries[path[0]], path[1..])
    else None
  }

  /** A scalar, a sequence, or an empty mapping. */
  predicate IsLeaf(j: Json) { j.Mapping? ==> j.entries == map[] }

  predicate LeafAt(j: Json, path: seq<Key>) { path != [] && Lookup(j, path).Some? && IsLeaf(Lookup(j, path).value) }

  /* ---------- naming leaves ---------- */

  /** An empty prefix counts as none. */
  function Join(prefix: string, key: Key): string { if prefix == "" then key else prefix + "." + key }

  function Named(leaves: set<string>, path: string): set<string> { if leaves == {} then {path} else leaves }

  function LeafPaths(j: Json, prefix: string): set<string>
    decreases j
  {
    if j.Mapping? then set k, s | k in j.entries
      && s in Named(LeafPaths(j.entries[k], Join(prefix, k)), Join(prefix, k)) :: s
    else if prefix == "" then {}
    else {prefix}
  }

  function RenderFrom(prefix: string, path: seq<Key>): string
    decreases path
  {
    if path == [] then prefix else RenderFrom(Join(prefix, path[0]), path[1..])
  }

  /** The dotted name of a key path. */
  function Render(path: seq<Key>): string { RenderFrom("", path) }

  lemma {:induction false} MappingsHaveLeaves(j: Json, prefix: string)
    requires j.Mapping? && j.entries != map[]
    ensures LeafPaths(j, prefix) != {}
  {
    var k :| k in j.entries;
    var child := Join(prefix, k);
    var s :| s in Named(LeafPaths(j.entries[k], child), child);
    assert s in LeafPaths(j, prefix);
  }

  lemma OneKey(j: Json, prefix: string, k: Key)
    requires j.Mapping? && k in j.entries && IsLeaf(j.entries[k])
    ensures LeafAt(j, [k]) && RenderFrom(prefix, [k]) == Join(prefix, k)
  {
    assert [k][1..] == [];
  }

  lemma {:induction false} NamesComeFromLeaves(j: Json, prefix: string, s: string)
    requires j.Mapping? && s in LeafPaths(j, prefix)
    ensures exists p :: LeafAt(j, p) && RenderFrom(prefix, p) == s
  {
    var k :| k in j.entries && s in Named(LeafPaths(j.entries[k], Join(prefix, k)), Join(prefix, k));
    var value, child := j.entries[k], Join(prefix, k);
    if IsLeaf(value) {
      assert value.Mapping? ==> LeafPaths(value, child) == {};
      assert s == child;
      OneKey(j, prefix, k);
    } else {
      MappingsHaveLeaves(value, child);
      NamesComeFromLeaves(value, child, s);
      var p :| LeafAt(value, p) && RenderFrom(child, p) == s;
      assert ([k] + p)[1..] == p;
      assert LeafAt(j, [k] + p) && RenderFrom(prefix, [k] + p) == s;
    }
  }

  lemma {:induction false} LeavesAreNamed(j: Json, prefix: string, p: seq<Key>)
    requires LeafAt(j, p)
    ensures RenderFrom(prefix, p) in LeafPaths(j, prefix)
  {
    var value, child := j.entries[p[0]], Join(prefix, p[0]);
    if p[1..] != [] { LeavesAreNamed(value, child, p[1..]); }
    assert RenderFrom(prefix, p) in Named(LeafPaths(value, child), child);
  }

  /** `_leaf_paths` returns exactly the names of the leaves below a mapping. */
  lemma LeafPathsExactly(j: Json, s: string)
    requires j.Mapping?
    ensures s in LeafPaths(j, "") <==> exists p :: LeafAt(j, p) && Render(p) == s
  {
    if s in LeafPaths(j, "") { NamesComeFromLeaves(j, "", s); }
    if p :| LeafAt(j, p) && Render(p) == s { LeavesAreNamed(j, "", p); }
  }

  /* ---------- what a merge keeps ---------- */

  lemma MergedEntry(t: Json, o: Json, k: Key)
    requires t.Mapping? && o.Mapping?
    ensures k in Merge(t, o).entries <==> k in t.entries || k in o.entries
    ensures k in t.entries && k !in o.entries ==> Merge(t, o).entries[k] == t.entries[k]
    ensures k in t.entries && k in o.entries && t.entries[k].Mapping? && o.entries[k].Mapping? ==>
              Merge(t, o).entries[k] == Merge(t.entries[k], o.entries[k])
    ensures k in o.entries && !(k in t.entries && t.entries[k].Mapping? && o.entries[k].Mapping?) ==>
              Merge(t, o).entries[k] == o.entries[k]
  {}

  lemma {:induction false} MergedLeaf(t: Json, o: Json, p: seq<Key>)
    requires t.Mapping? && o.Mapping? && LeafAt(Merge(t, o), p)
    ensures (LeafAt(o, p) && Lookup(o, p) == Lookup(Merge(t, o), p))
            || (!LeafAt(o, p) && LeafAt(t, p) && Lookup(t, p) == Lookup(Merge(t, o), p))
  {
    var k, rest := p[0], p[1..];
    MergedEntry(t, o, k);
    EntryLookup(Merge(t, o), p);
    EntryLookup(t, p);
    EntryLookup(o, p);
    if k in t.entries && k in o.entries && t.entries[k].Mapping? && o.entries[k].Mapping? {
      if rest == [] {
        MergeEmpty(t.entries[k], o.entries[k]);
      } else {
        MergedLeaf(t.entries[k], o.entries[k], rest);
      }
    }
  }

  lemma EntryLookup(j: Json, p: seq<Key>)
    requires j.Mapping? && p != []
    ensures Lookup(j, p) == if p[0] in j.entries then Lookup(j.entries[p[0]], p[1..]) else None
  {}

  lemma MergeEmpty(t: Json, o: Json)
    requires t.Mapping? && o.Mapping?
    ensures Merge(t, o).entries == map[] ==> t.entries == map[] && o.entries == map[]
  {
    var m := Merge(t, o);
    assert forall k :: k in t.entries || k in o.entries ==> k in m.entries;
  }

  /** The overlay wins at each of its scalars and sequences, and whatever it does not mention stays. */
  lemma {:induction false} OverlayWins(t: Json, o: Json, p: seq<Key>)
    requires t.Mapping? && o.Mapping? && p != []
    ensures Lookup(o, p).Some? && !Lookup(o, p).value.Mapping? ==> Lookup(Merge(t, o), p) == Lookup(o, p)
    ensures p[0] !in o.entries ==> Lookup(Merge(t, o), p) == Lookup(t, p)
  {
    var k := p[0];
    MergedEntry(t, o, k);
    if k in t.entries && k in o.entries && t.entries[k].Mapping? && o.entries[k].Mapping? && p[1..] != [] {
      OverlayWins(t.entries[k], o.entries[k], p[1..]);
    }
  }

  /* ---------- layers ---------- */

  type Source = nat

  datatype Effective = Effective(merged: Json, sources: map<string, Source>)

  /** Every name of `leaves` is recorded as coming from `source`. */
  function Record(sources: map<string, Source>, leaves: set<string>, source: Source): map<string, Source> {
    map s | s in sources.Keys + leaves :: if s in leaves then source else sources[s]
  }

  predicate Readable(files: map<Source, Json>, paths: seq<Source>, n: nat)
    requires n <= |paths|
  {
    forall i :: 0 <= i < n ==> paths[i] in files && files[paths[i]].Mapping?
  }

  /** The layer loop over the first `n` sources. */
  function Layered(files: map<Source, Json>, paths: seq<Source>, n: nat): (e: Effective)
    requires n <= |paths| && Readable(files, paths, n)
    ensures e.merged.Mapping?
  {
    if n == 0 then Effective(Mapping(map[]), map[])
    else
      var e := Layered(files, paths, n - 1);
      var document := files[paths[n - 1]];
      Effective(Merge(e.merged, document), Record(e.sources, LeafPaths(document, ""), paths[n - 1]))
  }

  predicate RightAt(files: map<Source, Json>, e: Effective, p: seq<Key>) {
    && Render(p) in e.sources && e.sources[Render(p)] in files
    && Lookup(files[e.sources[Render(p)]], p) == Lookup(e.merged, p)
  }

  /** Every leaf has a recorded source, whose own document holds the same value at the same path. */
  ghost predicate Right(files: map<Source, Json>, e: Effective) {
    forall p :: LeafAt(e.merged, p) ==> RightAt(files, e, p)
  }

  /** No two different leaves of the documents share a name. */
  ghost predicate NoCollision(files: map<Source, Json>, paths: seq<Source>)
    requires Readable(files, paths, |paths|)
  {
    forall i, j, p, q ::
      0 <= i < |paths| && 0 <= j < |paths| && LeafAt(files[paths[i]], p) && LeafAt(files[paths[j]], q) ==>
        Distinguished(p, q)
  }

  predicate Distinguished(p: seq<Key>, q: seq<Key>) { Render(p) == Render(q) ==> p == q }

  /** The layers applied so far from which each leaf came. */
  ghost predicate FromLayers(files: map<Source, Json>, paths: seq<Source>, n: nat, e: Effective)
    requires Readable(files, paths, |paths|) && n <= |paths|
  {
    forall p :: LeafAt(e.merged, p) ==> RightAt(files, e, p) && e.sources[Render(p)] in paths[..n]
  }

  lemma LayerKeeps(files: map<Source, Json>, paths: seq<Source>, n: nat, p: seq<Key>)
    requires Readable(files, paths, |paths|) && NoCollision(files, paths) && 0 < n <= |paths|
    requires FromLayers(files, paths, n - 1, Layered(files, paths, n - 1))
    requires LeafAt(Layered(files, paths, n).merged, p)
    ensures RightAt(files, Layered(files, paths, n), p)
    ensures Layered(files, paths, n).sources[Render(p)] in paths[..n]
  {
    var e, document := Layered(files, paths, n - 1), files[paths[n - 1]];
    assert paths[..n] == paths[..n - 1] + [paths[n - 1]];
    MergedLeaf(e.merged, document, p);
    LeafPathsExactly(document, Render(p));
    if !LeafAt(document, p) {
      assert RightAt(files, e, p);
      var i :| 0 <= i < n - 1 && paths[i] == e.sources[Render(p)];
      assert LeafAt(files[paths[i]], p);
      forall q | LeafAt(document, q) ensures Render(q) != Render(p) {
        assert Distinguished(p, q);
      }
    }
  }

  lemma {:induction false} LayersKeep(files: map<Source, Json>, paths: seq<Source>, n: nat)
    requires Readable(files, paths, |paths|) && NoCollision(files, paths) && n <= |paths|
    ensures FromLayers(files, paths, n, Layered(files, paths, n))
  {
    if n > 0 {
      LayersKeep(files, paths, n - 1);
      forall p | LeafAt(Layered(files, paths, n).merged, p)
        ensures RightAt(files, Layered(files, paths, n), p) && Layered(files, paths, n).sources[Render(p)] in paths[..n]
      {
        LayerKeeps(files, paths, n, p);
      }
    } else {
      NoLeaves();
    }
  }

  lemma NoLeaves()
    ensures forall p :: !LeafAt(Mapping(map[]), p)
  {}

  /** Whenever leaves of the documents have distinct names, provenance is right. */
  lemma ProvenanceIsRight(files: map<Source, Json>, paths: seq<Source>)
    requires Readable(files, paths, |paths|) && NoCollision(files, paths)
    ensures Right(files, Layered(files, paths, |paths|))
  {
    LayersKeep(files, paths, |paths|);
  }

  /* ---------- exactly which key vocabularies are safe ---------- */

  /** The key paths that documents may have leaves at. */
  type Vocabulary = seq<Key> -> bool

  ghost predicate Within(j: Json, v: Vocabulary) { forall p :: LeafAt(j, p) ==> v(p) }

  ghost predicate DocumentsWithin(files: map<Source, Json>, paths: seq<Source>, v: Vocabulary) {
    Readable(files, paths, |paths|) && forall i :: 0 <= i < |paths| ==> Within(files[paths[i]], v)
  }

  /** Whatever documents are written with these key paths, and layered in whatever order. */
  ghost predicate AlwaysRight(v: Vocabulary) {
    forall files, paths :: DocumentsWithin(files, paths, v) ==> Right(files, Layered(files, paths, |paths|))
  }

  ghost predicate Unambiguous(v: Vocabulary) {
    forall p, q :: p != [] && q != [] && v(p) && v(q) ==> Distinguished(p, q)
  }

  lemma UnambiguousIsEnough(files: map<Source, Json>, paths: seq<Source>, v: Vocabulary)
    requires Unambiguous(v) && DocumentsWithin(files, paths, v)
    ensures Right(files, Layered(files, paths, |paths|))
  {
    forall i, j, p, q | 0 <= i < |paths| && 0 <= j < |paths| && LeafAt(files[paths[i]], p) && LeafAt(files[paths[j]], q)
      ensures Distinguished(p, q)
    {
      assert Within(files[paths[i]], v) && Within(files[paths[j]], v);
    }
    ProvenanceIsRight(files, paths);
  }

  /** The document that holds one value at one path. */
  function Single(p: seq<Key>, value: Json): Json {
    if p == [] then value else Mapping(map[p[0] := Single(p[1..], value)])
  }

  predicate IsPrefix(p: seq<Key>, q: seq<Key>) { |p| <= |q| && p == q[..|p|] }

  lemma NothingBelowLeaf(value: Json, q: seq<Key>)
    requires IsLeaf(value) && q != []
    ensures Lookup(value, q) == None
  {}

  lemma InnerIsNoLeaf(p: seq<Key>, value: Json)
    ensures p != [] ==> !IsLeaf(Single(p, value))
  {
    if p != [] { assert p[0] in Single(p, value).entries; }
  }

  lemma {:induction false} SingleLeaf(p: seq<Key>, value: Json, q: seq<Key>)
    requires IsLeaf(value) && LeafAt(Single(p, value), q)
    ensures q == p
  {
    if p != [] {
      assert q == [q[0]] + q[1..] && p == [p[0]] + p[1..];
      InnerIsNoLeaf(p[1..], value);
      assert Lookup(Single(p, value), q) == Lookup(Single(p[1..], value), q[1..]);
      if q[1..] != [] { SingleLeaf(p[1..], value, q[1..]); }
    } else {
      NothingBelowLeaf(value, q);
    }
  }

  lemma {:induction false} SingleHolds(p: seq<Key>, value: Json)
    ensures Lookup(Single(p, value), p) == Some(value)
  {
    if p != [] { SingleHolds(p[1..], value); }
  }

  const Nothing := Mapping(map[])

  lemma PrefixOfTails(p: seq<Key>, q: seq<Key>)
    requires p != [] && q != [] && p[0] == q[0] && IsPrefix(p[1..], q[1..])
    ensures IsPrefix(p, q)
  {
    assert p == [p[0]] + p[1..] && q == [q[0]] + q[1..];
  }

  lemma {:induction false} OthersAreAbsent(p: seq<Key>, q: seq<Key>)
    requires !IsPrefix(p, q)
    ensures Lookup(Single(q, Nothing), p) == None
  {
    if q != [] && p[0] == q[0] {
      if IsPrefix(p[1..], q[1..]) { PrefixOfTails(p, q); } else { OthersAreAbsent(p[1..], q[1..]); }
    }
  }

  /** An empty mapping laid elsewhere, or above, leaves the value in place. */
  lemma {:induction false} ValueRemains(p: seq<Key>, q: seq<Key>)
    requires !IsPrefix(p, q)
    ensures Lookup(Merge(Single(p, Scalar(0)), Single(q, Nothing)), p) == Some(Scalar(0))
  {
    var t, o := Single(p, Scalar(0)), Single(q, Nothing);
    MergedEntry(t, o, p[0]);
    SingleHolds(p, Scalar(0));
    if q != [] && p[0] == q[0] {
      if IsPrefix(p[1..], q[1..]) { PrefixOfTails(p, q); }
      ValueRemains(p[1..], q[1..]);
    }
  }

  lemma MergeNothing(o: Json)
    requires o.Mapping?
    ensures Merge(Nothing, o) == o
  {
    forall k | k in o.entries || k in Merge(Nothing, o).entries
      ensures k in o.entries && k in Merge(Nothing, o).entries && Merge(Nothing, o).entries[k] == o.entries[k]
    {
      MergedEntry(Nothing, o, k);
    }
    assert Merge(Nothing, o).entries == o.entries;
  }

  /** A value at the first path, then an empty mapping at the second. */
  function Misleading(p: seq<Key>, q: seq<Key>): map<Source, Json> {
    map[0 := Single(p, Scalar(0)), 1 := Single(q, Nothing)]
  }

  /** Two paths with one name, the first not leading to the second: a later empty mapping at the
      second takes over the provenance of the first. */
  lemma SharedNameMisleads(p: seq<Key>, q: seq<Key>)
    requires p != [] && q != [] && Render(p) == Render(q) && !IsPrefix(p, q)
    ensures Readable(Misleading(p, q), [0, 1], 2)
    ensures !Right(Misleading(p, q), Layered(Misleading(p, q), [0, 1], 2))
  {
    var files := Misleading(p, q);
    var one := Layered(files, [0, 1], 1);
    var two := Layered(files, [0, 1], 2);
    assert Layered(files, [0, 1], 0) == Effective(Nothing, map[]);
    MergeNothing(files[0]);
    ValueRemains(p, q);
    assert LeafAt(two.merged, p);
    SingleHolds(q, Nothing);
    LeafPathsExactly(files[1], Render(q));
    assert LeafAt(files[1], q);
    OthersAreAbsent(p, q);
    assert !RightAt(files, two, p);
  }

  lemma MisleadingWithin(p: seq<Key>, q: seq<Key>, v: Vocabulary)
    requires p != [] && q != [] && v(p) && v(q)
    ensures DocumentsWithin(Misleading(p, q), [0, 1], v)
  {
    forall r | LeafAt(Single(p, Scalar(0)), r) ensures v(r) { SingleLeaf(p, Scalar(0), r); }
    forall r | LeafAt(Single(q, Nothing), r) ensures v(r) { SingleLeaf(q, Nothing, r); }
  }

  lemma SharedNameIsWrong(p: seq<Key>, q: seq<Key>, v: Vocabulary)
    requires p != [] && q != [] && v(p) && v(q) && Render(p) == Render(q) && !IsPrefix(p, q)
    ensures !AlwaysRight(v)
  {
    SharedNameMisleads(p, q);
    MisleadingWithin(p, q, v);
  }

  /** The layer loop by itself is right for every choice of documents over a vocabulary exactly when
      no two of its key paths share a dotted name. */
  lemma ProvenanceExactly(v: Vocabulary)
    ensures AlwaysRight(v) <==> Unambiguous(v)
  {
    if Unambiguous(v) {
      forall files, paths | DocumentsWithin(files, paths, v) ensures Right(files, Layered(files, paths, |paths|)) {
        UnambiguousIsEnough(files, paths, v);
      }
    } else {
      var p, q :| p != [] && q != [] && v(p) && v(q) && !Distinguished(p, q);
      if IsPrefix(p, q) { SharedNameIsWrong(q, p, v); } else { SharedNameIsWrong(p, q, v); }
    }
  }

  /* ---------- dot-free keys ---------- */

  predicate DotFree(k: Key) { '.' !in k }

  /** What follows the first key of a name. */
  function Tail(p: seq<Key>): string { if p == [] then "" else "." + p[0] + Tail(p[1..]) }

  lemma {:induction false} RenderIsTail(prefix: string, p: seq<Key>)
    requires prefix != ""
    ensures RenderFrom(prefix, p) == prefix + Tail(p)
    decreases p
  {
    if p != [] {
      RenderIsTail(Join(prefix, p[0]), p[1..]);
      assert prefix + "." + p[0] + Tail(p[1..]) == prefix + ("." + p[0] + Tail(p[1..]));
    }
  }

  predicate DotOrEnd(s: string) { s == "" || s[0] == '.' }

  lemma DotFreeIsNotLonger(a: Key, x: string, b: Key, y: string)
    requires a + x == b + y && DotFree(b) && DotOrEnd(x)
    ensures |b| <= |a|
  {
    assert x != "" ==> (a + x)[|a|] == '.';
    assert forall i :: 0 <= i < |b| ==> (b + y)[i] == b[i];
    assert |a + x| == |b + y|;
  }

  /** The first dot, or the end, delimits a dot-free key. */
  lemma CutAtDot(a: Key, x: string, b: Key, y: string)
    requires a + x == b + y && DotFree(a) && DotFree(b) && DotOrEnd(x) && DotOrEnd(y)
    ensures a == b && x == y
  {
    DotFreeIsNotLonger(a, x, b, y);
    DotFreeIsNotLonger(b, y, a, x);
    assert a == (a + x)[..|a|] && b == (b + y)[..|b|];
    assert x == (a + x)[|a|..] && y == (b + y)[|b|..];
  }

  predicate DotFreePath(p: seq<Key>) { forall i :: 0 <= i < |p| ==> DotFree(p[i]) }

  lemma {:induction false} TailsDiffer(p: seq<Key>, q: seq<Key>)
    requires DotFreePath(p) && DotFreePath(q) && Tail(p) == Tail(q)
    ensures p == q
  {
    if p != [] && q != [] {
      assert Tail(p) == "." + (p[0] + Tail(p[1..])) && Tail(q) == "." + (q[0] + Tail(q[1..]));
      assert Tail(p)[1..] == p[0] + Tail(p[1..]) && Tail(q)[1..] == q[0] + Tail(q[1..]);
      CutAtDot(p[0], Tail(p[1..]), q[0], Tail(q[1..]));
      TailsDiffer(p[1..], q[1..]);
      assert p == [p[0]] + p[1..] && q == [q[0]] + q[1..];
    }
  }

  lemma NamesDiffer(p: seq<Key>, q: seq<Key>)
    requires p != [] && q != [] && p[0] != "" && q[0] != "" && Render(p) == Render(q)
    requires DotFreePath(p) && DotFreePath(q)
    ensures p == q
  {
    RenderIsTail(p[0], p[1..]);
    RenderIsTail(q[0], q[1..]);
    CutAtDot(p[0], Tail(p[1..]), q[0], Tail(q[1..]));
    TailsDiffer(p[1..], q[1..]);
    assert p == [p[0]] + p[1..] && q == [q[0]] + q[1..];
  }

  predicate PathOver(p: seq<Key>, keys: set<Key>) { forall i :: 0 <= i < |p| ==> p[i] in keys }

  /** Over dot-free keys the layer loop by itself is always right exactly when the empty key is not
      among them, because at the top level it renders like no key at all. */
  lemma DotFreeProvenanceExactly(keys: set<Key>)
    requires forall k :: k in keys ==> DotFree(k)
    ensures AlwaysRight(p => PathOver(p, keys)) <==> "" !in keys
  {
    var v := p => PathOver(p, keys);
    ProvenanceExactly(v);
    if "" in keys {
      assert [""][1..] == [] && ["", ""][1..] == [""];
      assert v([""]) && v(["", ""]);
      assert !Distinguished([""], ["", ""]);
    } else {
      forall p, q | p != [] && q != [] && v(p) && v(q) ensures Distinguished(p, q) {
        if Render(p) == Render(q) { NamesDiffer(p, q); }
      }
    }
  }

  /** Below a top-level key that is not empty, dot-free keys, even empty ones, do no harm. */
  lemma NoEmptyTopLevelKeyIsEnough(files: map<Source, Json>, paths: seq<Source>)
    requires DocumentsWithin(files, paths, DotFreePath)
    requires forall i :: 0 <= i < |paths| ==> "" !in files[paths[i]].entries
    ensures Right(files, Layered(files, paths, |paths|))
  {
    forall i, j, p, q | 0 <= i < |paths| && 0 <= j < |paths| && LeafAt(files[paths[i]], p) && LeafAt(files[paths[j]], q)
      ensures Distinguished(p, q)
    {
      assert Within(files[paths[i]], DotFreePath) && Within(files[paths[j]], DotFreePath);
      if Render(p) == Render(q) { NamesDiffer(p, q); }
    }
    ProvenanceIsRight(files, paths);
  }
}
