/** What aliases do to the layer loop: which documents it reports rightly. */
module ConfigAliases {
  import opened Outcomes
  import opened ConfigMerge
  import opened ConfigObjects

  /* ---------- ways through a document ---------- */

  datatype Step = Entry(key: Key) | Item(index: nat)

  function Next(h: Heap, v: Value, a: Step): Option<Value> {
    match a
    case Entry(k) => if v.At? && v.node in h && k in h[v.node] then Some(h[v.node][k]) else None
    case Item(i) => if v.Listed? && i < |v.items| then Some(v.items[i]) else None
  }

  function Follow(h: Heap, v: Value, q: seq<Step>): Option<Value>
    decreases |q|
  {
    if q == [] then Some(v)
    else if Next(h, v, q[0]).None? then None
    else Follow(h, Next(h, v, q[0]).value, q[1..])
  }

  function ByKeys(p: seq<Key>): (q: seq<Step>) { if p == [] then [] else [Entry(p[0])] + ByKeys(p[1..]) }

  /** The way leads to the mapping object `n`. */
  predicate Found(h: Heap, v: Value, q: seq<Step>, n: Node) { Follow(h, v, q) == Some(At(n)) }

  /** A mapping object that a key path leads to is reached in no other way: not by another key path, and
      not through a sequence. Members of sequences may share. */
  ghost predicate Unaliased(h: Heap, v: Value) {
    forall p, q, n :: Found(h, v, ByKeys(p), n) && Found(h, v, q, n) ==> q == ByKeys(p)
  }

  function Inside(j: Json, a: Step): Option<Json> {
    match a
    case Entry(k) => if j.Mapping? && k in j.entries then Some(j.entries[k]) else None
    case Item(i) => if j.Sequence? && i < |j.items| then Some(j.items[i]) else None
  }

  function Below(j: Json, q: seq<Step>): Option<Json>
    decreases |q|
  {
    if q == [] then Some(j)
    else if Inside(j, q[0]).None? then None
    else Below(Inside(j, q[0]).value, q[1..])
  }

  lemma {:induction false} BelowByKeys(j: Json, p: seq<Key>)
    ensures Below(j, ByKeys(p)) == Lookup(j, p)
    decreases |p|
  {
    if p != [] {
      assert ByKeys(p)[1..] == ByKeys(p[1..]);
      if j.Mapping? && p[0] in j.entries { BelowByKeys(j.entries[p[0]], p[1..]); }
    }
  }

  lemma {:induction false} HoldsAlong(h: Heap, v: Value, j: Json, q: seq<Step>)
    requires Holds(h, v, j)
    ensures Follow(h, v, q).Some? <==> Below(j, q).Some?
    ensures Follow(h, v, q).Some? ==> Holds(h, Follow(h, v, q).value, Below(j, q).value)
    decreases |q|
  {
    if q != [] && Next(h, v, q[0]).Some? { HoldsAlong(h, Next(h, v, q[0]).value, Inside(j, q[0]).value, q[1..]); }
  }

  lemma {:induction false} FollowOn(h: Heap, v: Value, q: seq<Step>, rest: seq<Step>)
    requires Follow(h, v, q).Some?
    ensures Follow(h, v, q + rest) == Follow(h, Follow(h, v, q).value, rest)
    decreases |q|
  {
    if q == [] {
      assert q + rest == rest;
    } else {
      assert (q + rest)[1..] == q[1..] + rest;
      FollowOn(h, Next(h, v, q[0]).value, q[1..], rest);
    }
  }

  lemma {:induction false} FollowedPrefix(h: Heap, v: Value, q: seq<Step>, rest: seq<Step>)
    requires Follow(h, v, q + rest).Some?
    ensures Follow(h, v, q).Some?
    decreases |q|
  {
    if q != [] {
      assert (q + rest)[1..] == q[1..] + rest;
      FollowedPrefix(h, Next(h, v, q[0]).value, q[1..], rest);
    }
  }

  lemma FollowEntry(h: Heap, n: Node, k: Key, q: seq<Step>)
    requires n in h && k in h[n]
    ensures Follow(h, At(n), [Entry(k)] + q) == Follow(h, h[n][k], q)
  {
    assert ([Entry(k)] + q)[1..] == q;
  }

  lemma FollowItem(h: Heap, v: Value, i: nat, q: seq<Step>)
    requires v.Listed? && i < |v.items|
    ensures Follow(h, v, [Item(i)] + q) == Follow(h, v.items[i], q)
  {
    assert ([Item(i)] + q)[1..] == q;
  }

  lemma ByKeysOf(k: Key, p: seq<Key>)
    ensures ByKeys([k] + p) == [Entry(k)] + ByKeys(p)
  {
    assert ([k] + p)[1..] == p;
  }

  lemma {:induction false} ByKeysEnd(p: seq<Key>, k: Key)
    ensures ByKeys(p + [k]) == ByKeys(p) + [Entry(k)]
  {
    if p == [] {
      assert p + [k] == [k];
      assert [k][1..] == [];
    } else {
      assert (p + [k])[1..] == p[1..] + [k];
      ByKeysEnd(p[1..], k);
    }
  }

  /** Nothing contains itself. */
  lemma {:induction false} NoCycle(h: Heap, v: Value, j: Json, q: seq<Step>)
    requires Holds(h, v, j) && q != []
    ensures Follow(h, v, q) != Some(v)
    decreases j
  {
    if Follow(h, v, q) == Some(v) {
      var w, i := Next(h, v, q[0]).value, Inside(j, q[0]).value;
      FollowOn(h, w, q[1..], [q[0]]);
      assert Follow(h, v, [q[0]]) == Some(w) by { assert [q[0]][1..] == []; }
      NoCycle(h, w, i, q[1..] + [q[0]]);
    }
  }

  /* ---------- unaliased documents are tree-like ---------- */

  lemma {:induction false} FootIsFound(h: Heap, v: Value, j: Json, n: Node) returns (q: seq<Step>)
    requires Holds(h, v, j) && n in Foot(h, v, j)
    ensures Found(h, v, q, n)
    decreases j
  {
    match j
    case Sequence(items) =>
      var i :| 0 <= i < |items| && n in Foot(h, v.items[i], items[i]);
      var rest := FootIsFound(h, v.items[i], items[i], n);
      FollowItem(h, v, i, rest);
      q := [Item(i)] + rest;
    case Mapping(entries) =>
      if n == v.node { return []; }
      var k :| k in entries && n in Foot(h, h[v.node][k], entries[k]);
      var rest := FootIsFound(h, h[v.node][k], entries[k], n);
      FollowEntry(h, v.node, k, rest);
      q := [Entry(k)] + rest;
  }

  lemma {:induction false} OwnIsFound(h: Heap, v: Value, j: Json, n: Node) returns (p: seq<Key>)
    requires Holds(h, v, j) && n in Own(h, v, j)
    ensures Found(h, v, ByKeys(p), n)
    decreases j
  {
    if n == v.node { return []; }
    var k :| k in j.entries && n in Own(h, h[v.node][k], j.entries[k]);
    var rest := OwnIsFound(h, h[v.node][k], j.entries[k], n);
    ByKeysOf(k, rest);
    FollowEntry(h, v.node, k, ByKeys(rest));
    p := [k] + rest;
  }

  lemma UnaliasedEntry(h: Heap, n: Node, k: Key)
    requires Unaliased(h, At(n)) && n in h && k in h[n]
    ensures Unaliased(h, h[n][k])
  {
    forall p, q, m | Found(h, h[n][k], ByKeys(p), m) && Found(h, h[n][k], q, m) ensures q == ByKeys(p) {
      ByKeysOf(k, p);
      FollowEntry(h, n, k, ByKeys(p));
      FollowEntry(h, n, k, q);
      assert Found(h, At(n), ByKeys([k] + p), m) && Found(h, At(n), [Entry(k)] + q, m);
      assert q == ([Entry(k)] + q)[1..] && ByKeys(p) == ([Entry(k)] + ByKeys(p))[1..];
    }
  }

  lemma FirstStepsDiffer(k: Key, p: seq<Step>, l: Key, q: seq<Step>)
    requires k != l
    ensures [Entry(k)] + p != [Entry(l)] + q
  {
    assert ([Entry(k)] + p)[0] != ([Entry(l)] + q)[0];
  }

  lemma UnaliasedEntries(h: Heap, n: Node, j: Json, k: Key, l: Key)
    requires Unaliased(h, At(n)) && Holds(h, At(n), j) && j.Mapping? && k in j.entries && l in j.entries && k != l
    ensures Own(h, h[n][k], j.entries[k]) !! Foot(h, h[n][l], j.entries[l])
  {
    forall m | m in Own(h, h[n][k], j.entries[k]) ensures m !in Foot(h, h[n][l], j.entries[l]) {
      if m in Foot(h, h[n][l], j.entries[l]) {
        var p := OwnIsFound(h, h[n][k], j.entries[k], m);
        var q := FootIsFound(h, h[n][l], j.entries[l], m);
        ByKeysOf(k, p);
        FollowEntry(h, n, k, ByKeys(p));
        FollowEntry(h, n, l, q);
        assert Found(h, At(n), ByKeys([k] + p), m) && Found(h, At(n), [Entry(l)] + q, m);
        FirstStepsDiffer(k, ByKeys(p), l, q);
      }
    }
  }

  lemma NotInItself(h: Heap, n: Node, j: Json, k: Key)
    requires Holds(h, At(n), j) && j.Mapping? && k in j.entries
    ensures n !in Foot(h, h[n][k], j.entries[k])
  {
    if n in Foot(h, h[n][k], j.entries[k]) {
      var q := FootIsFound(h, h[n][k], j.entries[k], n);
      FollowEntry(h, n, k, q);
      NoCycle(h, At(n), j, [Entry(k)] + q);
    }
  }

  lemma {:induction false} UnaliasedIsTree(h: Heap, v: Value, j: Json)
    requires Holds(h, v, j) && Unaliased(h, v)
    ensures TreeLike(h, v, j)
    decreases j
  {
    if j.Mapping? {
      forall k | k in j.entries
        ensures TreeLike(h, h[v.node][k], j.entries[k]) && v.node !in Foot(h, h[v.node][k], j.entries[k])
      {
        UnaliasedEntry(h, v.node, k);
        UnaliasedIsTree(h, h[v.node][k], j.entries[k]);
        NotInItself(h, v.node, j, k);
      }
      forall k, l | k in j.entries && l in j.entries && k != l
        ensures Own(h, h[v.node][k], j.entries[k]) !! Foot(h, h[v.node][l], j.entries[l])
      {
        UnaliasedEntries(h, v.node, j, k, l);
      }
    }
  }

  /* ---------- the layer loop in place ---------- */

  /** The heap and the recorded sources after some layers. */
  datatype Loaded = Loaded(heap: Heap, sources: map<string, Source>)

  /** One document is merged into the object `r`, and then all its leaves are recorded. */
  function AddInPlace(order: Order, limit: nat, before: Loaded, r: Node, root: Node, source: Source): Option<Loaded> {
    var merged := MergeInto(order, before.heap, r, root, limit);
    if merged.None? then None
    else
      var names := LeafNames(merged.value, At(root), "", limit);
      if names.None? then None else Some(Loaded(merged.value, Record(before.sources, names.value, source)))
  }

  /** The first `n` documents, whose objects are `roots`, are added to an empty mapping `r`. */
  function InPlace(
    order: Order, limit: nat, h: Heap, r: Node, paths: seq<Source>, roots: seq<Node>, n: nat): Option<Loaded>
    requires n <= |paths| == |roots|
  {
    if n == 0 then Some(Loaded(h, map[]))
    else
      var before := InPlace(order, limit, h, r, paths, roots, n - 1);
      if before.None? then None else AddInPlace(order, limit, before.value, r, roots[n - 1], paths[n - 1])
  }

  /** An object that holds a document, apart from a new mapping `r`. */
  ghost predicate Parsed(h: Heap, r: Node, root: Node, document: Json) {
    Holds(h, At(root), document) && r !in Foot(h, At(root), document)
  }

  ghost predicate ApartFrom(h: Heap, root: Node, document: Json, other: Node, otherDocument: Json) {
    && Holds(h, At(root), document) && Holds(h, At(other), otherDocument)
    && Foot(h, At(root), document) !! Foot(h, At(other), otherDocument)
  }

  /** Objects that hold the documents, each parsed by itself, and a new mapping. */
  ghost predicate Stack(h: Heap, r: Node, files: map<Source, Json>, paths: seq<Source>, roots: seq<Node>) {
    && |paths| == |roots| && Readable(files, paths, |paths|)
    && r in h && h[r] == map[]
    && (forall i :: 0 <= i < |paths| ==> Parsed(h, r, roots[i], files[paths[i]]))
    && forall i, j :: 0 <= i < |paths| && 0 <= j < |paths| && i != j ==>
         ApartFrom(h, roots[i], files[paths[i]], roots[j], files[paths[j]])
  }

  ghost predicate Trees(h: Heap, r: Node, files: map<Source, Json>, paths: seq<Source>, roots: seq<Node>) {
    && Stack(h, r, files, paths, roots)
    && forall i :: 0 <= i < |paths| ==> Tree(h, At(roots[i]), files[paths[i]])
  }

  ghost predicate StillApart(h: Heap, h': Heap, r: Node, merged: Json, root: Node, document: Json) {
    && Holds(h, At(root), document) && Holds(h', At(r), merged)
    && SameOn(h, h', Foot(h, At(root), document))
    && Foot(h, At(root), document) !! Foot(h', At(r), merged)
  }

  /** The documents from index `n` on are untouched, and held apart from what has been merged. */
  ghost predicate RestIsApart(
    h: Heap, r: Node, files: map<Source, Json>, paths: seq<Source>, roots: seq<Node>, n: nat, h': Heap, merged: Json)
    requires Stack(h, r, files, paths, roots) && Holds(h', At(r), merged)
  {
    forall i :: n <= i < |paths| ==> StillApart(h, h', r, merged, roots[i], files[paths[i]])
  }

  ghost predicate Agree(
    h: Heap, r: Node, files: map<Source, Json>, paths: seq<Source>, roots: seq<Node>, n: nat, l: Loaded)
    requires Stack(h, r, files, paths, roots) && n <= |paths|
  {
    var e := Layered(files, paths, n);
    && l.sources == e.sources && Tree(l.heap, At(r), e.merged)
    && RestIsApart(h, r, files, paths, roots, n, l.heap, e.merged)
  }

  lemma NextIsMergeable(
    h: Heap, r: Node, files: map<Source, Json>, paths: seq<Source>, roots: seq<Node>, n: nat, l: Loaded)
    requires Trees(h, r, files, paths, roots) && n < |paths| && Agree(h, r, files, paths, roots, n, l)
    ensures AsBefore(h, l.heap, At(roots[n]), files[paths[n]])
    ensures Mergeable(l.heap, r, Layered(files, paths, n).merged, roots[n], files[paths[n]])
  {
    assert StillApart(h, l.heap, r, Layered(files, paths, n).merged, roots[n], files[paths[n]]);
    assert Tree(h, At(roots[n]), files[paths[n]]);
    HeldStill(h, l.heap, At(roots[n]), files[paths[n]]);
    OwnInFoot(h, At(roots[n]), files[paths[n]]);
    OwnInFoot(l.heap, At(r), Layered(files, paths, n).merged);
  }

  lemma LayerStaysApart(
    h: Heap, l: Heap, h': Heap, r: Node, merged: Json, next: Json, n: Node, jn: Json, root: Node, document: Json)
    requires Mergeable(l, r, merged, n, jn) && MergedTo(l, h', r, merged, n, jn, next)
    requires StillApart(h, l, r, merged, root, document) && AsBefore(h, l, At(n), jn)
    requires ApartFrom(h, root, document, n, jn)
    ensures StillApart(h, h', r, next, root, document)
  {
    OwnInFoot(l, At(r), merged);
  }

  lemma RestStaysApart(
    h: Heap, r: Node, files: map<Source, Json>, paths: seq<Source>, roots: seq<Node>, n: nat, l: Loaded, h': Heap)
    requires Stack(h, r, files, paths, roots) && n < |paths| && Agree(h, r, files, paths, roots, n, l)
    requires AsBefore(h, l.heap, At(roots[n]), files[paths[n]])
    requires Mergeable(l.heap, r, Layered(files, paths, n).merged, roots[n], files[paths[n]])
    requires MergedTo(l.heap, h', r, Layered(files, paths, n).merged, roots[n], files[paths[n]],
                      Layered(files, paths, n + 1).merged)
    ensures RestIsApart(h, r, files, paths, roots, n + 1, h', Layered(files, paths, n + 1).merged)
  {
    var merged, next := Layered(files, paths, n).merged, Layered(files, paths, n + 1).merged;
    forall i | n + 1 <= i < |paths| ensures StillApart(h, h', r, next, roots[i], files[paths[i]]) {
      LayerStaysApart(h, l.heap, h', r, merged, next, roots[n], files[paths[n]], roots[i], files[paths[i]]);
    }
  }

  lemma UnaliasedLayer(
    order: Order, limit: nat, h: Heap, r: Node, files: map<Source, Json>, paths: seq<Source>, roots: seq<Node>,
    n: nat, before: Loaded)
    requires Ordering(order) && Trees(h, r, files, paths, roots) && n < |paths|
    requires Agree(h, r, files, paths, roots, n, before)
    ensures var l := AddInPlace(order, limit, before, r, roots[n], paths[n]);
            && (l.Some? ==> Agree(h, r, files, paths, roots, n + 1, l.value))
            && (Fits(files[paths[n]], limit) ==> l.Some?)
  {
    var document, merged := files[paths[n]], Layered(files, paths, n).merged;
    NextIsMergeable(h, r, files, paths, roots, n, before);
    UnaliasedMerge(order, before.heap, r, merged, roots[n], document, limit);
    var h' := MergeInto(order, before.heap, r, roots[n], limit);
    if h'.Some? {
      HeldElsewhere(before.heap, h'.value, Own(before.heap, At(r), merged), At(roots[n]), document);
      LeafNamesRead(h'.value, At(roots[n]), document, "", limit);
      RestStaysApart(h, r, files, paths, roots, n, before, h'.value);
    }
  }

  lemma NothingLoaded(h: Heap, r: Node, files: map<Source, Json>, paths: seq<Source>, roots: seq<Node>)
    requires Trees(h, r, files, paths, roots)
    ensures Agree(h, r, files, paths, roots, 0, Loaded(h, map[]))
  {
    forall i | 0 <= i < |paths| ensures StillApart(h, h, r, Mapping(map[]), roots[i], files[paths[i]]) {
      assert Parsed(h, r, roots[i], files[paths[i]]);
      OwnInFoot(h, At(roots[i]), files[paths[i]]);
    }
  }

  /** After each of the first `n` layers the loop in place has what the loop on contents has, unless the
      recursion limit stopped it. */
  ghost predicate AsContents(
    order: Order, limit: nat, h: Heap, r: Node, files: map<Source, Json>, paths: seq<Source>, roots: seq<Node>, n: nat)
    requires Stack(h, r, files, paths, roots) && n <= |paths|
  {
    var l := InPlace(order, limit, h, r, paths, roots, n);
    && (n > 0 ==> AsContents(order, limit, h, r, files, paths, roots, n - 1))
    && (l.Some? ==> Agree(h, r, files, paths, roots, n, l.value))
    && (l.None? ==> exists i :: 0 <= i < n && !Fits(files[paths[i]], limit))
  }

  lemma OneMoreLayer(
    order: Order, limit: nat, h: Heap, r: Node, files: map<Source, Json>, paths: seq<Source>, roots: seq<Node>, n: nat)
    requires Ordering(order) && Trees(h, r, files, paths, roots) && n < |paths|
    requires AsContents(order, limit, h, r, files, paths, roots, n)
    ensures AsContents(order, limit, h, r, files, paths, roots, n + 1)
  {
    var before := InPlace(order, limit, h, r, paths, roots, n);
    if before.Some? { UnaliasedLayer(order, limit, h, r, files, paths, roots, n, before.value); }
    assert InPlace(order, limit, h, r, paths, roots, n + 1)
        == if before.None? then None else AddInPlace(order, limit, before.value, r, roots[n], paths[n]);
  }

  /** Without aliases the layer loop in place is the layer loop on contents. */
  lemma {:induction false} UnaliasedLayers(
    order: Order, limit: nat, h: Heap, r: Node, files: map<Source, Json>, paths: seq<Source>, roots: seq<Node>, n: nat)
    requires Ordering(order) && Trees(h, r, files, paths, roots) && n <= |paths|
    ensures AsContents(order, limit, h, r, files, paths, roots, n)
  {
    if n == 0 {
      NothingLoaded(h, r, files, paths, roots);
    } else {
      UnaliasedLayers(order, limit, h, r, files, paths, roots, n - 1);
      OneMoreLayer(order, limit, h, r, files, paths, roots, n - 1);
    }
  }

  /* ---------- right sources ---------- */

  /** The value at the end of the key path is no mapping, or an empty one. */
  predicate LeafInPlace(h: Heap, r: Node, p: seq<Key>) {
    var v := Follow(h, At(r), ByKeys(p));
    p != [] && v.Some? && (v.value.At? ==> v.value.node in h && h[v.value.node] == map[])
  }

  /** The recorded source is a file that holds at this path what the merged document holds there. */
  predicate RightValue(files: map<Source, Json>, l: Loaded, r: Node, p: seq<Key>)
    requires LeafInPlace(l.heap, r, p)
  {
    && Render(p) in l.sources && l.sources[Render(p)] in files
    && Lookup(files[l.sources[Render(p)]], p).Some?
    && Holds(l.heap, Follow(l.heap, At(r), ByKeys(p)).value, Lookup(files[l.sources[Render(p)]], p).value)
  }

  ghost predicate RightInPlace(files: map<Source, Json>, l: Loaded, r: Node) {
    forall p :: LeafInPlace(l.heap, r, p) ==> RightValue(files, l, r, p)
  }

  lemma RightHeld(files: map<Source, Json>, e: Effective, l: Loaded, r: Node)
    requires Holds(l.heap, At(r), e.merged) && l.sources == e.sources && Right(files, e)
    ensures RightInPlace(files, l, r)
  {
    forall p | LeafInPlace(l.heap, r, p) ensures RightValue(files, l, r, p) {
      HoldsAlong(l.heap, At(r), e.merged, ByKeys(p));
      BelowByKeys(e.merged, p);
      assert LeafAt(e.merged, p);
      assert RightAt(files, e, p);
    }
  }

  /** Documents whose names cannot be confused. */
  ghost predicate CleanKeys(files: map<Source, Json>, paths: seq<Source>) {
    DocumentsWithin(files, paths, DotFreePath) && forall i :: 0 <= i < |paths| ==> "" !in files[paths[i]].entries
  }

  /** Without aliases, and with clean keys, the layer loop reports every value rightly. */
  lemma UnaliasedIsRight(
    order: Order, limit: nat, h: Heap, r: Node, files: map<Source, Json>, paths: seq<Source>, roots: seq<Node>)
    requires Ordering(order) && Trees(h, r, files, paths, roots) && CleanKeys(files, paths)
    ensures var l := InPlace(order, limit, h, r, paths, roots, |paths|); l.Some? ==> RightInPlace(files, l.value, r)
  {
    UnaliasedLayers(order, limit, h, r, files, paths, roots, |paths|);
    NoEmptyTopLevelKeyIsEnough(files, paths);
    var l := InPlace(order, limit, h, r, paths, roots, |paths|);
    if l.Some? { RightHeld(files, Layered(files, paths, |paths|), l.value, r); }
  }
}
