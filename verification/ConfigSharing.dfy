/** What a shared mapping does: a later file that sets one value changes another as well. */
module ConfigSharing {
  import opened Outcomes
  import opened Listings
  import opened ConfigMerge
  import opened ConfigObjects
  import opened ConfigAliases

  /* ---------- the first file ---------- */

  function Part(m: map<Key, Value>, ks: seq<Key>, i: nat): map<Key, Value>
    requires i <= |ks|
  {
    map k | k in m && k in ks[..i] :: m[k]
  }

  lemma PartGrows(m: map<Key, Value>, ks: seq<Key>, i: nat)
    requires i < |ks| && NoRepeats(ks) && ks[i] in m
    ensures ks[i] !in Part(m, ks, i) && Part(m, ks, i)[ks[i] := m[ks[i]]] == Part(m, ks, i + 1)
  {
    assert ks[..i + 1] == ks[..i] + [ks[i]];
    assert ks[i] !in ks[..i];
  }

  lemma {:induction false} CopyLoop(order: Order, h: Heap, r: Node, o: Node, ks: seq<Key>, i: nat, limit: nat)
    requires r in h && o in h && o != r && limit > 0 && i <= |ks|
    requires Elements(ks) == h[o].Keys && NoRepeats(ks) && h[r] == Part(h[o], ks, i)
    ensures MergeItems(order, h, r, o, ks, i, limit) == Some(h[r := h[o]])
    decreases |ks| - i
  {
    if i == |ks| {
      assert ks[..|ks|] == ks;
      assert Part(h[o], ks, i) == h[o];
      assert h[r := h[o]] == h;
    } else {
      assert ks[i] in Elements(ks);
      PartGrows(h[o], ks, i);
      var next := Set(h, r, ks[i], h[o][ks[i]]);
      CopyLoop(order, next, r, o, ks, i + 1, limit);
      assert next[r := h[o]] == h[r := h[o]];
    }
  }

  /** The first document's entries become those of the empty mapping. */
  lemma FirstIsCopied(order: Order, h: Heap, r: Node, o: Node, limit: nat)
    requires Ordering(order) && r in h && h[r] == map[] && o in h && o != r && limit > 0
    ensures MergeInto(order, h, r, o, limit) == Some(h[r := h[o]])
  {
    CopyLoop(order, h, r, o, order(o, h[o].Keys), 0, limit);
  }

  /* ---------- a later file with one value ---------- */

  lemma {:induction false} CountOf(q: seq<Key>)
    requires NoRepeats(q)
    ensures |Elements(q)| == |q|
  {
    if q != [] {
      CountOf(q[1..]);
      assert q == [q[0]] + q[1..];
      assert Elements(q) == {q[0]} + Elements(q[1..]);
    }
  }

  lemma OneInOrder(q: seq<Key>, k: Key)
    requires Elements(q) == {k} && NoRepeats(q)
    ensures q == [k]
  {
    CountOf(q);
    assert q[0] in Elements(q);
  }

  lemma TwoInOrder(q: seq<Key>, k: Key, l: Key)
    requires Elements(q) == {k, l} && NoRepeats(q) && k != l
    ensures q == [k, l] || q == [l, k]
  {
    CountOf(q);
    assert |{k, l}| == 2;
    assert q[0] in Elements(q) && q[1] in Elements(q) && q[0] != q[1];
  }

  /** From the object `o` on, one mapping per key of the path, and the value under `k` in the last. */
  predicate Chained(h: Heap, o: Node, path: seq<Key>, k: Key, x: int)
    decreases |path|
  {
    && o in h
    && if path == [] then h[o] == map[k := Plain(x)]
       else h[o] == map[path[0] := At(o + 1)] && Chained(h, o + 1, path[1..], k, x)
  }

  function WithChain(h: Heap, o: Node, path: seq<Key>, k: Key, x: int): Heap
    decreases |path|
  {
    if path == [] then h[o := map[k := Plain(x)]]
    else WithChain(h, o + 1, path[1..], k, x)[o := map[path[0] := At(o + 1)]]
  }

  lemma {:induction false} ChainIsThere(h: Heap, g: Heap, o: Node, path: seq<Key>, k: Key, x: int)
    requires forall n :: n in WithChain(h, o, path, k, x) && o <= n ==> n in g && g[n] == WithChain(h, o, path, k, x)[n]
    ensures Chained(g, o, path, k, x)
    ensures forall n :: n < o && n in h ==> n in WithChain(h, o, path, k, x) && WithChain(h, o, path, k, x)[n] == h[n]
    decreases |path|
  {
    if path != [] { ChainIsThere(h, g, o + 1, path[1..], k, x); }
  }

  lemma MergeOneItem(order: Order, h: Heap, t: Node, o: Node, k: Key, limit: nat)
    requires Ordering(order) && limit > 0 && t in h && o in h && h[o].Keys == {k}
    requires MergeStep(order, h, t, o, k, limit).Some?
    requires var next := MergeStep(order, h, t, o, k, limit).value; t in next && o in next && next[o] == h[o]
    ensures MergeInto(order, h, t, o, limit) == MergeStep(order, h, t, o, k, limit)
  {
    var ks := order(o, h[o].Keys);
    OneInOrder(ks, k);
    var next := MergeStep(order, h, t, o, k, limit).value;
    assert MergeItems(order, next, t, o, ks, 1, limit) == Some(next);
  }

  /** Merging the one value in place sets it in the mapping object that the path leads to. */
  lemma {:induction false} ChainMerge(
    order: Order, h: Heap, t: Node, o: Node, path: seq<Key>, k: Key, x: int, n: Node, limit: nat)
    requires Ordering(order) && Chained(h, o, path, k, x) && Found(h, At(t), ByKeys(path), n)
    requires t in h && n in h && n < o && limit > |path|
    ensures MergeInto(order, h, t, o, limit) == Some(Set(h, n, k, Plain(x)))
    decreases |path|
  {
    if path == [] {
      MergeOneItem(order, h, t, o, k, limit);
    } else {
      assert ByKeys(path)[1..] == ByKeys(path[1..]);
      var c := h[t][path[0]];
      assert Follow(h, c, ByKeys(path[1..])) == Some(At(n));
      LeadsToMapping(h, c, path[1..], n);
      ChainMerge(order, h, c.node, o + 1, path[1..], k, x, n, limit - 1);
      MergeOneItem(order, h, t, o, path[0], limit);
    }
  }

  lemma LeadsToMapping(h: Heap, v: Value, path: seq<Key>, n: Node)
    requires Found(h, v, ByKeys(path), n) && n in h
    ensures v.At? && v.node in h
  {}

  const VERSION: Key := "schema_version"

  /** The objects of a file with a version and one value at the end of a key path. */
  predicate Overlaid(h: Heap, o: Node, p: seq<Key>, k: Key, x: int, s: int)
    requires p != []
  {
    o in h && h[o] == map[VERSION := Plain(s), p[0] := At(o + 1)] && Chained(h, o + 1, p[1..], k, x)
  }

  lemma SetSame(h: Heap, t: Node, k: Key, v: Value)
    requires t in h && k in h[t] && h[t][k] == v
    ensures Set(h, t, k, v) == h
  {
    assert h[t][k := v] == h[t];
  }

  lemma PathStep(
    order: Order, h: Heap, r: Node, o: Node, p: seq<Key>, k: Key, x: int, s: int, n: Node, limit: nat)
    requires Ordering(order) && p != [] && p[0] != VERSION && Overlaid(h, o, p, k, x, s)
    requires Found(h, At(r), ByKeys(p), n) && n in h && n < o && limit > |p| && r in h
    ensures MergeStep(order, h, r, o, p[0], limit) == Some(Set(h, n, k, Plain(x)))
  {
    assert ByKeys(p)[1..] == ByKeys(p[1..]);
    var c := h[r][p[0]];
    LeadsToMapping(h, c, p[1..], n);
    ChainMerge(order, h, c.node, o + 1, p[1..], k, x, n, limit - 1);
  }

  lemma VersionStep(order: Order, h: Heap, r: Node, o: Node, s: int, limit: nat)
    requires r in h && VERSION in h[r] && h[r][VERSION] == Plain(s) && limit > 0
    requires o in h && VERSION in h[o] && h[o][VERSION] == Plain(s)
    ensures MergeStep(order, h, r, o, VERSION, limit) == Some(h)
  {
    SetSame(h, r, VERSION, Plain(s));
  }

  lemma OverlayMerge(
    order: Order, h: Heap, r: Node, o: Node, p: seq<Key>, k: Key, x: int, s: int, n: Node, limit: nat)
    requires Ordering(order) && p != [] && p[0] != VERSION && Overlaid(h, o, p, k, x, s)
    requires Found(h, At(r), ByKeys(p), n) && n in h && n < o && n != r && limit > |p|
    requires r in h && VERSION in h[r] && h[r][VERSION] == Plain(s)
    ensures MergeInto(order, h, r, o, limit) == Some(Set(h, n, k, Plain(x)))
  {
    var merged := Set(h, n, k, Plain(x));
    PathStep(order, h, r, o, p, k, x, s, n, limit);
    VersionStep(order, h, r, o, s, limit);
    VersionStep(order, merged, r, o, s, limit);
    var ks := order(o, h[o].Keys);
    TwoInOrder(ks, VERSION, p[0]);
    TwoItems(order, h, r, o, ks, limit, merged);
  }

  lemma TwoItems(order: Order, h: Heap, r: Node, o: Node, ks: seq<Key>, limit: nat, merged: Heap)
    requires limit > 0 && |ks| == 2 && r in h && o in h && h[o].Keys == Elements(ks)
    requires r in merged && o in merged && merged[o] == h[o]
    requires ks[0] in h[o] && ks[1] in h[o]
    requires var first := MergeStep(order, h, r, o, ks[0], limit);
             || (first == Some(h) && MergeStep(order, h, r, o, ks[1], limit) == Some(merged))
             || (first == Some(merged) && MergeStep(order, merged, r, o, ks[1], limit) == Some(merged))
    ensures MergeItems(order, h, r, o, ks, 0, limit) == Some(merged)
  {
    assert MergeItems(order, merged, r, o, ks, 2, limit) == Some(merged);
    var between := MergeStep(order, h, r, o, ks[0], limit).value;
    assert MergeItems(order, between, r, o, ks, 1, limit) == Some(merged);
  }

  /* ---------- what the later file holds ---------- */

  function OverlayJson(p: seq<Key>, k: Key, x: int, s: int): Json
    requires p != []
  {
    Mapping(map[VERSION := Scalar(s), p[0] := Single(p[1..] + [k], Scalar(x))])
  }

  lemma {:induction false} ChainHolds(h: Heap, o: Node, path: seq<Key>, k: Key, x: int)
    requires Chained(h, o, path, k, x)
    ensures Holds(h, At(o), Single(path + [k], Scalar(x)))
    ensures forall n :: n in Foot(h, At(o), Single(path + [k], Scalar(x))) ==> o <= n
    decreases |path|
  {
    if path == [] {
      assert (path + [k])[1..] == [];
    } else {
      assert (path + [k])[1..] == path[1..] + [k];
      ChainHolds(h, o + 1, path[1..], k, x);
    }
  }

  lemma OverlayHolds(h: Heap, o: Node, p: seq<Key>, k: Key, x: int, s: int)
    requires p != [] && p[0] != VERSION && Overlaid(h, o, p, k, x, s)
    ensures Holds(h, At(o), OverlayJson(p, k, x, s))
    ensures forall n :: n in Foot(h, At(o), OverlayJson(p, k, x, s)) ==> o <= n
  {
    ChainHolds(h, o + 1, p[1..], k, x);
  }

  lemma OverlayLeaf(p: seq<Key>, k: Key, x: int, s: int, q: seq<Key>)
    requires p != [] && p[0] != VERSION && LeafAt(OverlayJson(p, k, x, s), q)
    ensures q == [VERSION] || q == p + [k]
  {
    assert q == [q[0]] + q[1..] && p == [p[0]] + p[1..];
    var below := q[1..];
    if q[0] == VERSION {
      if below != [] { NothingBelowLeaf(Scalar(s), below); }
    } else {
      var rest := p[1..] + [k];
      assert Lookup(OverlayJson(p, k, x, s), q) == Lookup(Single(rest, Scalar(x)), below);
      if below == [] { InnerIsNoLeaf(rest, Scalar(x)); } else { SingleLeaf(rest, Scalar(x), below); }
    }
  }

  lemma OverlayNames(p: seq<Key>, k: Key, x: int, s: int, name: string)
    requires p != [] && p[0] != VERSION && name in LeafPaths(OverlayJson(p, k, x, s), "")
    ensures name == Render([VERSION]) || name == Render(p + [k])
  {
    var j := OverlayJson(p, k, x, s);
    LeafPathsExactly(j, name);
    var q :| LeafAt(j, q) && Render(q) == name;
    OverlayLeaf(p, k, x, s, q);
  }

  lemma {:induction false} SingleFits(path: seq<Key>, x: int, limit: nat)
    requires limit > |path|
    ensures Fits(Single(path, Scalar(x)), limit)
  {
    if path != [] { SingleFits(path[1..], x, limit - 1); }
  }

  lemma OverlayFits(p: seq<Key>, k: Key, x: int, s: int, limit: nat)
    requires p != [] && limit > |p| + 1
    ensures Fits(OverlayJson(p, k, x, s), limit)
  {
    SingleFits(p[1..] + [k], x, limit - 1);
  }

  /* ---------- what stays where it was ---------- */

  /** Setting a value under a key that has none, or another, moves no mapping and no sequence. */
  lemma {:induction false} WaysRemain(h: Heap, n: Node, k: Key, x: int, v: Value, q: seq<Step>)
    requires n in h && (k in h[n] ==> h[n][k].Plain?)
    requires Follow(h, v, q).Some? && !Follow(h, v, q).value.Plain?
    ensures Follow(Set(h, n, k, Plain(x)), v, q) == Follow(h, v, q)
    decreases |q|
  {
    if q != [] {
      assert !(v == At(n) && q[0] == Entry(k)) by {
        if v == At(n) && q[0] == Entry(k) { NoWayOn(h, h[n][k], q[1..]); }
      }
      WaysRemain(h, n, k, x, Next(h, v, q[0]).value, q[1..]);
    }
  }

  lemma NoWayOn(h: Heap, v: Value, q: seq<Step>)
    requires v.Plain?
    ensures Follow(h, v, q) == if q == [] then Some(v) else None
  {}

  /** Ways within a document are unaffected by changes elsewhere. */
  lemma {:induction false} SameWays(h: Heap, h': Heap, v: Value, j: Json, q: seq<Step>)
    requires Holds(h, v, j) && SameOn(h, h', Foot(h, v, j))
    ensures Follow(h', v, q) == Follow(h, v, q)
    decreases |q|
  {
    if q != [] && Next(h, v, q[0]).Some? { SameWays(h, h', Next(h, v, q[0]).value, Inside(j, q[0]).value, q[1..]); }
  }

  lemma {:induction false} FoundInFoot(h: Heap, v: Value, j: Json, q: seq<Step>, n: Node)
    requires Holds(h, v, j) && Found(h, v, q, n)
    ensures n in Foot(h, v, j)
    decreases |q|
  {
    if q != [] { FoundInFoot(h, Next(h, v, q[0]).value, Inside(j, q[0]).value, q[1..], n); }
  }

  /** After the first file, ways below the merged mapping are those below the file's own. */
  lemma WaysAreCopied(h: Heap, r: Node, root: Node, document: Json, q: seq<Step>)
    requires r in h && Parsed(h, r, root, document) && q != []
    ensures Follow(h[r := h[root]], At(r), q) == Follow(h, At(root), q)
  {
    var h1 := h[r := h[root]];
    if Next(h, At(root), q[0]).Some? {
      OwnInFoot(h, At(root), document);
      var k := q[0].key;
      SameWays(h, h1, h[root][k], document.entries[k], q[1..]);
    }
  }

  lemma {:induction false} ChainElsewhere(h: Heap, h': Heap, o: Node, path: seq<Key>, k: Key, x: int)
    requires Chained(h, o, path, k, x) && forall n :: o <= n && n in h ==> n in h' && h'[n] == h[n]
    ensures Chained(h', o, path, k, x)
    decreases |path|
  {
    if path != [] { ChainElsewhere(h, h', o + 1, path[1..], k, x); }
  }

  /* ---------- keys of inner paths ---------- */

  lemma {:induction false} LeafBelow(j: Json) returns (q: seq<Key>)
    requires !IsLeaf(j)
    ensures LeafAt(j, q)
    decreases j
  {
    var k :| k in j.entries;
    assert [k][1..] == [];
    if IsLeaf(j.entries[k]) { return [k]; }
    var rest := LeafBelow(j.entries[k]);
    q := [k] + rest;
    assert q[1..] == rest;
  }

  lemma {:induction false} LookupOn(j: Json, p: seq<Key>, q: seq<Key>)
    requires Lookup(j, p).Some?
    ensures Lookup(j, p + q) == Lookup(Lookup(j, p).value, q)
    decreases |p|
  {
    if p == [] {
      assert p + q == q;
    } else {
      assert (p + q)[1..] == p[1..] + q;
      LookupOn(j.entries[p[0]], p[1..], q);
    }
  }

  lemma InnerPathIsDotFree(j: Json, p: seq<Key>)
    requires Within(j, DotFreePath) && Lookup(j, p).Some?
    ensures DotFreePath(p)
  {
    if p != [] {
      if IsLeaf(Lookup(j, p).value) {
        assert LeafAt(j, p);
      } else {
        var q := LeafBelow(Lookup(j, p).value);
        LookupOn(j, p, q);
        assert LeafAt(j, p + q);
        forall i | 0 <= i < |p| ensures DotFree(p[i]) { assert (p + q)[i] == p[i]; }
      }
    }
  }

  /* ---------- a mapping object at two places ---------- */

  /** A file of version `s` with clean keys, one of whose mapping objects a key path and another way lead to. */
  ghost predicate Shared(h: Heap, r: Node, root: Node, document: Json, s: int, p: seq<Key>, q: seq<Step>, n: Node) {
    && r in h && h[r] == map[] && document.Mapping? && Parsed(h, r, root, document)
    && Within(document, DotFreePath) && "" !in document.entries
    && VERSION in document.entries && document.entries[VERSION] == Scalar(s)
    && Found(h, At(root), ByKeys(p), n) && Found(h, At(root), q, n) && q != ByKeys(p)
  }

  lemma SharedPaths(h: Heap, r: Node, root: Node, document: Json, s: int, p: seq<Key>, q: seq<Step>, n: Node)
    requires Shared(h, r, root, document, s, p, q, n)
    ensures root in h && VERSION in h[root] && h[root][VERSION] == Plain(s)
    ensures p != [] && q != [] && p[0] != VERSION && n in h && n != r && n in Foot(h, At(root), document)
  {
    assert Holds(h, h[root][VERSION], document.entries[VERSION]);
    if p == [] { NoCycle(h, At(root), document, q); }
    if q == [] { NoCycle(h, At(root), document, ByKeys(p)); }
    FoundInFoot(h, At(root), document, q, n);
    OwnInFoot(h, At(root), document);
    if p[0] == VERSION { NoWayOn(h, h[root][VERSION], ByKeys(p)[1..]); }
  }

  /** A later file of the same version that sets one value in the shared object, where it has none or another. */
  ghost predicate SetsShared(
    h: Heap, r: Node, root: Node, document: Json, s: int, p: seq<Key>, q: seq<Step>, n: Node, o: Node, k: Key, x: int)
  {
    && Shared(h, r, root, document, s, p, q, n) && p != [] && p[0] != VERSION
    && r < o && n < o && Overlaid(h, o, p, k, x, s)
    && DotFree(k) && n in h && (k in h[n] ==> h[n][k].Plain? && h[n][k].value != x)
  }

  /** What the loop makes of the two files. */
  function AfterBoth(
    h: Heap, r: Node, root: Node, document: Json, s: int, p: seq<Key>, n: Node, k: Key, x: int,
    a: Source, b: Source): Loaded
    requires p != [] && root in h && n in h[r := h[root]]
  {
    Loaded(Set(h[r := h[root]], n, k, Plain(x)),
           Record(Record(map[], LeafPaths(document, ""), a), LeafPaths(OverlayJson(p, k, x, s), ""), b))
  }

  lemma FirstLayer(order: Order, limit: nat, h: Heap, r: Node, root: Node, document: Json, a: Source)
    requires Ordering(order) && r in h && h[r] == map[] && document.Mapping? && Parsed(h, r, root, document)
    requires Fits(document, limit)
    ensures AddInPlace(order, limit, Loaded(h, map[]), r, root, a)
              == Some(Loaded(h[r := h[root]], Record(map[], LeafPaths(document, ""), a)))
  {
    var h1 := h[r := h[root]];
    FirstIsCopied(order, h, r, root, limit);
    OwnInFoot(h, At(root), document);
    HeldStill(h, h1, At(root), document);
    LeafNamesRead(h1, At(root), document, "", limit);
  }

  lemma SecondLayer(
    order: Order, limit: nat, h: Heap, r: Node, root: Node, document: Json, s: int, p: seq<Key>, q: seq<Step>, n: Node,
    o: Node, k: Key, x: int, sources: map<string, Source>, b: Source)
    requires Ordering(order) && SetsShared(h, r, root, document, s, p, q, n, o, k, x) && limit > |p| + 1
    ensures root in h && n in h
    ensures AddInPlace(order, limit, Loaded(h[r := h[root]], sources), r, o, b)
              == Some(Loaded(Set(h[r := h[root]], n, k, Plain(x)),
                             Record(sources, LeafPaths(OverlayJson(p, k, x, s), ""), b)))
  {
    var h1 := h[r := h[root]];
    SharedPaths(h, r, root, document, s, p, q, n);
    WaysAreCopied(h, r, root, document, ByKeys(p));
    ChainElsewhere(h, h1, o + 1, p[1..], k, x);
    OverlayMerge(order, h1, r, o, p, k, x, s, n, limit);
    var h2 := Set(h1, n, k, Plain(x));
    ChainElsewhere(h, h2, o + 1, p[1..], k, x);
    OverlayHolds(h2, o, p, k, x, s);
    OverlayFits(p, k, x, s, limit);
    LeafNamesRead(h2, At(o), OverlayJson(p, k, x, s), "", limit);
  }

  lemma BothLayers(
    order: Order, limit: nat, h: Heap, r: Node, root: Node, document: Json, s: int, p: seq<Key>, q: seq<Step>, n: Node,
    o: Node, k: Key, x: int, a: Source, b: Source)
    requires Ordering(order) && SetsShared(h, r, root, document, s, p, q, n, o, k, x)
    requires limit > |p| + 1 && Fits(document, limit)
    ensures root in h && n in h
    ensures InPlace(order, limit, h, r, [a, b], [root, o], 2)
            == Some(AfterBoth(h, r, root, document, s, p, n, k, x, a, b))
  {
    var sources := Record(map[], LeafPaths(document, ""), a);
    FirstLayer(order, limit, h, r, root, document, a);
    SecondLayer(order, limit, h, r, root, document, s, p, q, n, o, k, x, sources, b);
    assert InPlace(order, limit, h, r, [a, b], [root, o], 0) == Some(Loaded(h, map[]));
    assert InPlace(order, limit, h, r, [a, b], [root, o], 1) == Some(Loaded(h[r := h[root]], sources));
  }

  /** Where the other way starts with key path `f` and the name is not one of the later file's, its recorded
      source, if any, is the first file. */
  lemma FirstIsNamed(
    h: Heap, r: Node, root: Node, document: Json, s: int, p: seq<Key>, n: Node, k: Key, x: int, a: Source, b: Source,
    f: seq<Key>)
    requires p != [] && p[0] != VERSION && root in h && n in h[r := h[root]]
    requires f != [] && f[0] != "" && p[0] != "" && DotFreePath(f) && DotFreePath(p + [k])
    requires f != p + [k] && f != [VERSION]
    ensures var l := AfterBoth(h, r, root, document, s, p, n, k, x, a, b);
            Render(f) in l.sources ==> l.sources[Render(f)] == a
  {
    if Render(f) in LeafPaths(OverlayJson(p, k, x, s), "") {
      OverlayNames(p, k, x, s, Render(f));
      if Render(f) == Render(p + [k]) { NamesDiffer(f, p + [k]); } else { NamesDiffer(f, [VERSION]); }
    }
  }

  /** The key path of a shared file has clean keys. */
  lemma CleanPath(h: Heap, root: Node, document: Json, f: seq<Key>)
    requires Holds(h, At(root), document) && document.Mapping? && Within(document, DotFreePath)
    requires "" !in document.entries && f != [] && Follow(h, At(root), ByKeys(f)).Some?
    ensures DotFreePath(f) && f[0] != "" && Lookup(document, f).Some?
    ensures Holds(h, Follow(h, At(root), ByKeys(f)).value, Lookup(document, f).value)
  {
    HoldsAlong(h, At(root), document, ByKeys(f));
    BelowByKeys(document, f);
    InnerPathIsDotFree(document, f);
  }

  /** Ways that do not end in a plain value lead to the same after both files. */
  lemma WaysAfterBoth(
    h: Heap, r: Node, root: Node, document: Json, s: int, p: seq<Key>, q: seq<Step>, n: Node, o: Node, k: Key, x: int,
    way: seq<Step>)
    requires SetsShared(h, r, root, document, s, p, q, n, o, k, x) && way != []
    requires Follow(h, At(root), way).Some? && !Follow(h, At(root), way).value.Plain?
    ensures root in h && n in h && Follow(Set(h[r := h[root]], n, k, Plain(x)), At(r), way) == Follow(h, At(root), way)
  {
    SharedPaths(h, r, root, document, s, p, q, n);
    WaysAreCopied(h, r, root, document, way);
    WaysRemain(h[r := h[root]], n, k, x, At(r), way);
  }

  /** The second key path leads to the new value, but the loop records no source for it that holds it. */
  lemma OtherPathIsWrong(
    h: Heap, r: Node, root: Node, document: Json, s: int, p: seq<Key>, f: seq<Key>, n: Node, o: Node, k: Key, x: int,
    a: Source, b: Source, files: map<Source, Json>)
    requires SetsShared(h, r, root, document, s, p, ByKeys(f), n, o, k, x) && a in files && files[a] == document
    ensures root in h && n in h && !RightInPlace(files, AfterBoth(h, r, root, document, s, p, n, k, x, a, b), r)
  {
    SharedPaths(h, r, root, document, s, p, ByKeys(f), n);
    var l := AfterBoth(h, r, root, document, s, p, n, k, x, a, b);
    var leaf := f + [k];
    WaysAfterBoth(h, r, root, document, s, p, ByKeys(f), n, o, k, x, ByKeys(f));
    ByKeysEnd(f, k);
    LastStep(l.heap, At(r), ByKeys(f), n, k);
    LastStep(h, At(root), ByKeys(f), n, k);
    assert LeafInPlace(l.heap, r, leaf);
    CleanPath(h, root, document, f);
    CleanPath(h, root, document, p);
    LongerPaths(p, f, k);
    FirstIsNamed(h, r, root, document, s, p, n, k, x, a, b, leaf);
    HoldsAlong(h, At(root), document, ByKeys(leaf));
    BelowByKeys(document, leaf);
    assert !RightValue(files, l, r, leaf);
  }

  lemma LongerPaths(p: seq<Key>, f: seq<Key>, k: Key)
    requires p != [] && f != [] && DotFreePath(p) && DotFreePath(f) && DotFree(k)
    ensures DotFreePath(p + [k]) && DotFreePath(f + [k]) && (f + [k])[0] == f[0]
    ensures f != p ==> f + [k] != p + [k]
    ensures f + [k] != [VERSION]
  {
    assert f == (f + [k])[..|f|] && p == (p + [k])[..|p|];
    assert |f + [k]| > 1;
  }

  lemma LastStep(h: Heap, v: Value, q: seq<Step>, n: Node, k: Key)
    requires Found(h, v, q, n) && n in h
    ensures Follow(h, v, q + [Entry(k)]) == if k in h[n] then Some(h[n][k]) else None
  {
    FollowOn(h, v, q, [Entry(k)]);
    assert [Entry(k)][1..] == [];
  }

  /** A way is a key path, or a key path that goes on through a sequence. */
  lemma {:induction false} SplitWay(q: seq<Step>) returns (f: seq<Key>, rest: seq<Step>)
    ensures q == ByKeys(f) + rest && (rest == [] || rest[0].Item?)
  {
    if q == [] || q[0].Item? { return [], q; }
    var keys, others := SplitWay(q[1..]);
    ByKeysOf(q[0].key, keys);
    f, rest := [q[0].key] + keys, others;
    assert q == [q[0]] + q[1..];
  }

  /** The sequence holds another content than its file gives it. */
  lemma SequenceHasChanged(h: Heap, h': Heap, w: Value, j: Json, rest: seq<Step>, n: Node, k: Key, x: int)
    requires n in h && n in h' && h'[n] == h[n][k := Plain(x)] && (k in h[n] ==> h[n][k].Plain? && h[n][k].value != x)
    requires Holds(h, w, j) && Found(h, w, rest, n) && Found(h', w, rest, n)
    ensures !Holds(h', w, j)
  {
    HoldsAlong(h, w, j, rest);
    ObjectHasChanged(h, h', n, k, x, Below(j, rest).value);
    if Holds(h', w, j) { HoldsAlong(h', w, j, rest); }
  }

  lemma ObjectHasChanged(h: Heap, h': Heap, n: Node, k: Key, x: int, i: Json)
    requires n in h && n in h' && h'[n] == h[n][k := Plain(x)] && (k in h[n] ==> h[n][k].Plain? && h[n][k].value != x)
    ensures Holds(h, At(n), i) ==> !Holds(h', At(n), i)
  {
    assert k in h'[n];
    if k in h[n] && Holds(h, At(n), i) { assert Holds(h, h[n][k], i.entries[k]); }
  }

  lemma SequenceIsWrong(
    h: Heap, r: Node, root: Node, document: Json, s: int, p: seq<Key>, f: seq<Key>, rest: seq<Step>, n: Node,
    o: Node, k: Key, x: int, a: Source, b: Source, files: map<Source, Json>)
    requires SetsShared(h, r, root, document, s, p, ByKeys(f) + rest, n, o, k, x)
    requires rest != [] && rest[0].Item? && a in files && files[a] == document
    ensures root in h && n in h && !RightInPlace(files, AfterBoth(h, r, root, document, s, p, n, k, x, a, b), r)
  {
    var q := ByKeys(f) + rest;
    SharedPaths(h, r, root, document, s, p, q, n);
    var l := AfterBoth(h, r, root, document, s, p, n, k, x, a, b);
    FollowedPrefix(h, At(root), ByKeys(f), rest);
    FollowOn(h, At(root), ByKeys(f), rest);
    var w := Follow(h, At(root), ByKeys(f)).value;
    assert w.Listed? && f != [];
    WaysAfterBoth(h, r, root, document, s, p, q, n, o, k, x, ByKeys(f));
    WaysAfterBoth(h, r, root, document, s, p, q, n, o, k, x, q);
    FollowOn(l.heap, At(r), ByKeys(f), rest);
    assert LeafInPlace(l.heap, r, f);
    CleanPath(h, root, document, f);
    CleanPath(h, root, document, p);
    SequenceElsewhere(h, r, root, document, s, p, q, n, o, k, x, f);
    FirstIsNamed(h, r, root, document, s, p, n, k, x, a, b, f);
    SequenceHasChanged(h, l.heap, w, Lookup(document, f).value, rest, n, k, x);
    assert !RightValue(files, l, r, f);
  }

  /** The path of a sequence is neither of those that the later file sets. */
  lemma SequenceElsewhere(
    h: Heap, r: Node, root: Node, document: Json, s: int, p: seq<Key>, q: seq<Step>, n: Node, o: Node, k: Key, x: int,
    f: seq<Key>)
    requires SetsShared(h, r, root, document, s, p, q, n, o, k, x)
    requires DotFreePath(p)
    requires Follow(h, At(root), ByKeys(f)).Some? && Follow(h, At(root), ByKeys(f)).value.Listed?
    ensures f != p + [k] && f != [VERSION] && DotFreePath(p + [k])
  {
    SharedPaths(h, r, root, document, s, p, q, n);
    ByKeysEnd(p, k);
    LastStep(h, At(root), ByKeys(p), n, k);
    LastStep(h, At(root), [], root, VERSION);
    assert ByKeys([VERSION]) == [] + [Entry(VERSION)] by { assert [VERSION][1..] == []; }
    LongerPaths(p, p, k);
  }

  /** When a mapping object is at a key path and anywhere else, a later file that sets one value in it by that
      path ends in a wrong source. */
  lemma SharingMisleads(
    order: Order, limit: nat, h: Heap, r: Node, root: Node, document: Json, s: int, p: seq<Key>, q: seq<Step>, n: Node,
    o: Node, k: Key, x: int, a: Source, b: Source, files: map<Source, Json>)
    requires Ordering(order) && SetsShared(h, r, root, document, s, p, q, n, o, k, x)
    requires limit > |p| + 1 && Fits(document, limit) && a in files && files[a] == document
    ensures var l := InPlace(order, limit, h, r, [a, b], [root, o], 2); l.Some? && !RightInPlace(files, l.value, r)
  {
    BothLayers(order, limit, h, r, root, document, s, p, q, n, o, k, x, a, b);
    var f, rest := SplitWay(q);
    if rest == [] {
      assert q == ByKeys(f);
      OtherPathIsWrong(h, r, root, document, s, p, f, n, o, k, x, a, b, files);
    } else {
      SequenceIsWrong(h, r, root, document, s, p, f, rest, n, o, k, x, a, b, files);
    }
  }

  /* ---------- exactly which files are safe ---------- */

  /** A file of version `s` with clean keys. */
  predicate CleanFile(document: Json, s: int) {
    && document.Mapping? && "" !in document.entries
    && VERSION in document.entries && document.entries[VERSION] == Scalar(s)
  }

  /** The file is loaded first, and after it any files of its version with clean keys and no aliases. */
  ghost predicate Continues(
    h: Heap, h': Heap, r: Node, root: Node, document: Json, s: int,
    files: map<Source, Json>, paths: seq<Source>, roots: seq<Node>)
    requires Holds(h, At(root), document)
  {
    && SameOn(h, h', Foot(h, At(root), document)) && Stack(h', r, files, paths, roots)
    && paths != [] && roots[0] == root && files[paths[0]] == document
    && DocumentsWithin(files, paths, DotFreePath)
    && (forall i :: 0 <= i < |paths| ==> CleanFile(files[paths[i]], s))
    && forall i :: 1 <= i < |paths| ==> Unaliased(h', At(roots[i]))
  }

  /** Whatever files follow, a loop that gets through them reports every value rightly. */
  ghost predicate RightWhateverFollows(order: Order, limit: nat, h: Heap, r: Node, root: Node, document: Json, s: int)
    requires Holds(h, At(root), document)
  {
    forall h', files, paths, roots :: Continues(h, h', r, root, document, s, files, paths, roots) ==>
      RightOutcome(order, limit, h', r, files, paths, roots)
  }

  ghost predicate RightOutcome(
    order: Order, limit: nat, h: Heap, r: Node, files: map<Source, Json>, paths: seq<Source>, roots: seq<Node>)
    requires |paths| == |roots|
  {
    var l := InPlace(order, limit, h, r, paths, roots, |paths|);
    l.Some? ==> RightInPlace(files, l.value, r)
  }

  lemma UnaliasedFileIsSafe(
    order: Order, limit: nat, h: Heap, h': Heap, r: Node, root: Node, document: Json, s: int,
    files: map<Source, Json>, paths: seq<Source>, roots: seq<Node>)
    requires Ordering(order) && Holds(h, At(root), document) && Unaliased(h, At(root))
    requires Continues(h, h', r, root, document, s, files, paths, roots)
    ensures RightOutcome(order, limit, h', r, files, paths, roots)
  {
    UnaliasedIsTree(h, At(root), document);
    HeldStill(h, h', At(root), document);
    forall i | 0 <= i < |paths| ensures Tree(h', At(roots[i]), files[paths[i]]) {
      assert Parsed(h', r, roots[i], files[paths[i]]);
      if i > 0 { UnaliasedIsTree(h', At(roots[i]), files[paths[i]]); }
    }
    forall i | 0 <= i < |paths| ensures "" !in files[paths[i]].entries { assert CleanFile(files[paths[i]], s); }
    UnaliasedIsRight(order, limit, h', r, files, paths, roots);
  }

  /* ---------- the later file that exposes an alias ---------- */

  lemma {:induction false} LongKey(ks: set<Key>) returns (k: Key)
    ensures DotFree(k) && forall l :: l in ks ==> |l| < |k|
  {
    if ks == {} {
      k := "x";
    } else {
      var l :| l in ks;
      var other := LongKey(ks - {l});
      k := other + seq(|l|, i => 'x') + "x";
    }
  }

  lemma {:induction false} Above(ns: set<Node>) returns (o: Node)
    ensures forall n :: n in ns ==> n < o
  {
    if ns == {} { return 0; }
    var n :| n in ns;
    var other := Above(ns - {n});
    o := if other > n then other else n + 1;
    forall m | m in ns ensures m < o { assert m == n || m in ns - {n}; }
  }

  function WithOverlay(h: Heap, o: Node, p: seq<Key>, k: Key, x: int, s: int): Heap
    requires p != []
  {
    WithChain(h, o + 1, p[1..], k, x)[o := map[VERSION := Plain(s), p[0] := At(o + 1)]]
  }

  lemma OverlayIsThere(h: Heap, o: Node, p: seq<Key>, k: Key, x: int, s: int)
    requires p != [] && forall n :: n in h ==> n < o
    ensures Overlaid(WithOverlay(h, o, p, k, x, s), o, p, k, x, s)
    ensures SameOn(h, WithOverlay(h, o, p, k, x, s), h.Keys)
  {
    var g, chain := WithOverlay(h, o, p, k, x, s), WithChain(h, o + 1, p[1..], k, x);
    ChainIsThere(h, g, o + 1, p[1..], k, x);
    forall n | n in h ensures n in g && g[n] == h[n] { assert n in chain && chain[n] == h[n]; }
  }

  lemma {:induction false} ChainOneWay(
    h: Heap, o: Node, path: seq<Key>, k: Key, x: int, q: seq<Step>, q': seq<Step>, n: Node)
    requires Chained(h, o, path, k, x) && Found(h, At(o), q, n) && Found(h, At(o), q', n)
    ensures q == q'
    decreases |path|
  {
    if path == [] {
      if q != [] { NoWayOn(h, Plain(x), q[1..]); }
      if q' != [] { NoWayOn(h, Plain(x), q'[1..]); }
    } else if q != [] && q' != [] {
      ChainOneWay(h, o + 1, path[1..], k, x, q[1..], q'[1..], n);
      assert q == [q[0]] + q[1..] && q' == [q'[0]] + q'[1..];
    } else if q != [] {
      ChainGoesUp(h, o, path, k, x, q, n);
    } else if q' != [] {
      ChainGoesUp(h, o, path, k, x, q', n);
    }
  }

  lemma ChainGoesUp(h: Heap, o: Node, path: seq<Key>, k: Key, x: int, q: seq<Step>, n: Node)
    requires Chained(h, o, path, k, x) && Found(h, At(o), q, n) && q != []
    ensures o < n
  {
    if path == [] {
      NoWayOn(h, h[o][k], q[1..]);
    } else {
      ChainHolds(h, o + 1, path[1..], k, x);
      FoundInFoot(h, At(o + 1), Single(path[1..] + [k], Scalar(x)), q[1..], n);
    }
  }

  lemma OverlayIsUnaliased(h: Heap, o: Node, p: seq<Key>, k: Key, x: int, s: int)
    requires p != [] && p[0] != VERSION && Overlaid(h, o, p, k, x, s)
    ensures Unaliased(h, At(o))
  {
    forall f, q, n | Found(h, At(o), ByKeys(f), n) && Found(h, At(o), q, n) ensures q == ByKeys(f) {
      OverlayOneWay(h, o, p, k, x, s, ByKeys(f), q, n);
    }
  }

  lemma OverlayOneWay(
    h: Heap, o: Node, p: seq<Key>, k: Key, x: int, s: int, q: seq<Step>, q': seq<Step>, n: Node)
    requires p != [] && p[0] != VERSION && Overlaid(h, o, p, k, x, s)
    requires Found(h, At(o), q, n) && Found(h, At(o), q', n)
    ensures q == q'
  {
    OverlayFirstStep(h, o, p, k, x, s, q, n);
    OverlayFirstStep(h, o, p, k, x, s, q', n);
    if q != [] && q' != [] { ChainOneWay(h, o + 1, p[1..], k, x, q[1..], q'[1..], n); }
  }

  lemma OverlayFirstStep(h: Heap, o: Node, p: seq<Key>, k: Key, x: int, s: int, q: seq<Step>, n: Node)
    requires p != [] && p[0] != VERSION && Overlaid(h, o, p, k, x, s) && Found(h, At(o), q, n)
    ensures if q == [] then n == o
            else o < n && q == [Entry(p[0])] + q[1..] && Found(h, At(o + 1), q[1..], n)
  {
    if q != [] {
      if q[0] == Entry(VERSION) { NoWayOn(h, Plain(s), q[1..]); }
      ChainHolds(h, o + 1, p[1..], k, x);
      FoundInFoot(h, At(o + 1), Single(p[1..] + [k], Scalar(x)), q[1..], n);
    }
  }

  lemma {:induction false} FitsDepth(h: Heap, v: Value, j: Json, p: seq<Key>, limit: nat)
    requires Holds(h, v, j) && Fits(j, limit) && Follow(h, v, ByKeys(p)).Some?
    ensures limit > |p|
    decreases |p|
  {
    if p != [] {
      assert ByKeys(p)[1..] == ByKeys(p[1..]);
      FitsDepth(h, h[v.node][p[0]], j.entries[p[0]], p[1..], limit - 1);
    }
  }

  lemma {:induction false} FitsMore(j: Json, limit: nat)
    requires Fits(j, limit)
    ensures Fits(j, limit + 1)
    decreases j
  {
    if j.Mapping? {
      forall k | k in j.entries ensures Fits(j.entries[k], limit) { FitsMore(j.entries[k], limit - 1); }
    }
  }

  lemma OverlayIsClean(p: seq<Key>, k: Key, x: int, s: int)
    requires p != [] && p[0] != VERSION && p[0] != "" && DotFreePath(p) && DotFree(k)
    ensures CleanFile(OverlayJson(p, k, x, s), s) && Within(OverlayJson(p, k, x, s), DotFreePath)
  {
    forall q | LeafAt(OverlayJson(p, k, x, s), q) ensures DotFreePath(q) { OverlayLeaf(p, k, x, s, q); }
  }

  /** The objects of the first file and of a later one. */
  function TwoFiles(document: Json, p: seq<Key>, k: Key, x: int, s: int): map<Source, Json>
    requires p != []
  {
    map[0 := document, 1 := OverlayJson(p, k, x, s)]
  }

  lemma StackOfTwo(
    h: Heap, h': Heap, r: Node, root: Node, document: Json, s: int, p: seq<Key>, o: Node, k: Key, x: int)
    requires r in h && h[r] == map[] && document.Mapping? && Parsed(h, r, root, document) && CleanFile(document, s)
    requires Within(document, DotFreePath) && p != [] && p[0] != VERSION && p[0] != "" && DotFreePath(p) && DotFree(k)
    requires SameOn(h, h', h.Keys) && Overlaid(h', o, p, k, x, s) && forall n :: n in h ==> n < o
    ensures Continues(h, h', r, root, document, s, TwoFiles(document, p, k, x, s), [0, 1], [root, o])
  {
    OwnInFoot(h, At(root), document);
    HeldStill(h, h', At(root), document);
    OverlayHolds(h', o, p, k, x, s);
    OverlayIsClean(p, k, x, s);
    OverlayIsUnaliased(h', o, p, k, x, s);
    PairIsStack(h', r, root, document, o, OverlayJson(p, k, x, s));
    PairIsClean(document, p, k, x, s);
  }

  lemma PairIsStack(h: Heap, r: Node, root: Node, document: Json, o: Node, later: Json)
    requires r in h && h[r] == map[] && document.Mapping? && later.Mapping?
    requires Parsed(h, r, root, document) && Parsed(h, r, o, later) && ApartFrom(h, root, document, o, later)
    ensures Stack(h, r, map[0 := document, 1 := later], [0, 1], [root, o])
  {}

  lemma PairIsClean(document: Json, p: seq<Key>, k: Key, x: int, s: int)
    requires p != [] && CleanFile(document, s) && Within(document, DotFreePath)
    requires CleanFile(OverlayJson(p, k, x, s), s) && Within(OverlayJson(p, k, x, s), DotFreePath)
    ensures DocumentsWithin(TwoFiles(document, p, k, x, s), [0, 1], DotFreePath)
    ensures forall i :: 0 <= i < 2 ==> CleanFile(TwoFiles(document, p, k, x, s)[[0, 1][i]], s)
  {}

  lemma SharedStays(
    h: Heap, h': Heap, r: Node, root: Node, document: Json, s: int, p: seq<Key>, q: seq<Step>, n: Node)
    requires Shared(h, r, root, document, s, p, q, n) && SameOn(h, h', h.Keys)
    ensures Shared(h', r, root, document, s, p, q, n)
  {
    OwnInFoot(h, At(root), document);
    HeldStill(h, h', At(root), document);
    SameWays(h, h', At(root), document, ByKeys(p));
    SameWays(h, h', At(root), document, q);
  }

  /** A file with a mapping object at a key path and elsewhere is followed by one that makes the loop report
      wrongly. */
  lemma SharedFileIsUnsafe(
    order: Order, limit: nat, h: Heap, r: Node, root: Node, document: Json, s: int, p: seq<Key>, q: seq<Step>, n: Node)
    requires Ordering(order) && Shared(h, r, root, document, s, p, q, n) && limit > 0 && Fits(document, limit - 1)
    ensures !RightWhateverFollows(order, limit, h, r, root, document, s)
  {
    SharedPaths(h, r, root, document, s, p, q, n);
    CleanPath(h, root, document, p);
    var k := LongKey(h[n].Keys);
    var o := Above(h.Keys);
    var h' := WithOverlay(h, o, p, k, 0, s);
    OverlayIsThere(h, o, p, k, 0, s);
    StackOfTwo(h, h', r, root, document, s, p, o, k, 0);
    SharedStays(h, h', r, root, document, s, p, q, n);
    FitsDepth(h, At(root), document, p, limit - 1);
    FitsMore(document, limit - 1);
    var files := TwoFiles(document, p, k, 0, s);
    SharingMisleads(order, limit, h', r, root, document, s, p, q, n, o, k, 0, 0, 1, files);
    assert !RightOutcome(order, limit, h', r, files, [0, 1], [root, o]);
  }

  /** A file can be followed by anything without aliases, and every value is reported rightly, exactly when no
      mapping object in it is at a key path and anywhere else. */
  lemma SafeFilesExactly(order: Order, limit: nat, h: Heap, r: Node, root: Node, document: Json, s: int)
    requires Ordering(order) && r in h && h[r] == map[] && Parsed(h, r, root, document)
    requires CleanFile(document, s) && Within(document, DotFreePath) && limit > 0 && Fits(document, limit - 1)
    ensures RightWhateverFollows(order, limit, h, r, root, document, s) <==> Unaliased(h, At(root))
  {
    if Unaliased(h, At(root)) {
      forall h', files, paths, roots | Continues(h, h', r, root, document, s, files, paths, roots)
        ensures RightOutcome(order, limit, h', r, files, paths, roots)
      {
        UnaliasedFileIsSafe(order, limit, h, h', r, root, document, s, files, paths, roots);
      }
    } else {
      var p, q, n :| Found(h, At(root), ByKeys(p), n) && Found(h, At(root), q, n) && q != ByKeys(p);
      SharedFileIsUnsafe(order, limit, h, r, root, document, s, p, q, n);
    }
  }
}
