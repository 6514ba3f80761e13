/** The loader: mapping objects updated in place, layer by layer. */
module ConfigLoading {
  import opened Outcomes
  import opened Listings
  import opened ConfigMerge
  import opened ConfigObjects
  import opened ConfigAliases
  import opened ConfigSharing

  /** What reading and parsing one source gives: a string-keyed mapping or not, its object, and the registry's
      verdict on its schema version. */
  datatype File = File(readable: bool, root: Node, version: Option<nat>)

  function Roots(files: seq<File>): (roots: seq<Node>) { seq(|files|, i requires 0 <= i < |files| => files[i].root) }

  /** Why the layer loop stops at file `i`, given that it passed the one before. */
  function Problem(files: seq<File>, i: nat): Option<Code>
    requires i < |files|
  {
    if !files[i].readable then Some(Configuration)
    else if files[i].version == None || (i > 0 && files[i].version != files[i - 1].version) then Some(VersionError)
    else None
  }

  predicate Clean(files: seq<File>, n: nat)
    requires n <= |files|
  {
    forall i :: 0 <= i < n ==> Problem(files, i) == None
  }

  /** The heap with a new mapping. */
  function WithNew(h: Heap, r: Node): Heap { h[r := map[]] }

  lemma {:induction false} StoppedForGood(
    order: Order, limit: nat, h: Heap, r: Node, paths: seq<Source>, roots: seq<Node>, i: nat, n: nat)
    requires i <= n <= |paths| == |roots| && InPlace(order, limit, h, r, paths, roots, i).None?
    ensures InPlace(order, limit, h, r, paths, roots, n).None?
  {
    if i < n { StoppedForGood(order, limit, h, r, paths, roots, i, n - 1); }
  }

  /** Why the layer loop gives up at index `i`, if it does: the file's problem, or the interpreter's limits. */
  function GivesUp(
    order: Order, limit: nat, h: Heap, r: Node, paths: seq<Source>, files: seq<File>, i: nat): Option<Code>
    requires i < |paths| == |files|
  {
    if Problem(files, i).Some? then Problem(files, i)
    else if InPlace(order, limit, h, r, paths, Roots(files), i + 1).None? then Some(InterpreterError)
    else None
  }

  predicate GetsTo(order: Order, limit: nat, h: Heap, r: Node, paths: seq<Source>, files: seq<File>, i: nat)
    requires i <= |paths| == |files|
  {
    Clean(files, i) && InPlace(order, limit, h, r, paths, Roots(files), i).Some?
  }

  /** The declared fields of the effective configuration, which forbids any other. */
  const FIELDS: set<Key> := {
    "schema_version", "mode", "timezone", "project", "providers", "model_routes", "agent_routes", "services",
    "credential_bindings", "policy_sources", "tool_sources", "inspection_profile", "isolation_profiles", "crewai",
    "daemon", "persistence", "artifacts", "sessions", "web", "browser", "mcp", "skills", "engineer_profile",
    "community_candidate_sources", "engineering_profile", "engineering_pack_sources", "mission_template_sources",
    "notifications", "telemetry", "knowledge", "scheduling", "team_effectiveness", "distributed"}

  predicate Declared(k: Key) { k in FIELDS }

  lemma EmptyKeyIsNotDeclared()
    ensures !Declared("")
  {}

  /** The validator of the merged mapping: no other field than the declared ones, and its verdict on their values. */
  predicate Accepts(valid: (Heap, Node) -> bool, h: Heap, r: Node)
    requires r in h
  {
    (forall k :: k in h[r] ==> Declared(k)) && valid(h, r)
  }

  /** When a load returns. */
  predicate Loads(
    order: Order, limit: nat, h: Heap, r: Node, paths: seq<Source>, files: seq<File>, valid: (Heap, Node) -> bool)
    requires |paths| == |files|
  {
    && paths != [] && GetsTo(order, limit, h, r, paths, files, |paths|)
    && var l := InPlace(order, limit, h, r, paths, Roots(files), |paths|).value;
       r in l.heap && Accepts(valid, l.heap, r)
  }

  /** The layer loop passes the files before index `i` and gives up there. */
  predicate StopsAt(
    order: Order, limit: nat, h: Heap, r: Node, paths: seq<Source>, files: seq<File>, i: nat, code: Code)
    requires i < |paths| == |files|
  {
    GetsTo(order, limit, h, r, paths, files, i) && GivesUp(order, limit, h, r, paths, files, i) == Some(code)
  }

  lemma StopsForGood(
    order: Order, limit: nat, h: Heap, r: Node, paths: seq<Source>, files: seq<File>, i: nat, code: Code)
    requires i < |paths| == |files| && StopsAt(order, limit, h, r, paths, files, i, code)
    ensures !GetsTo(order, limit, h, r, paths, files, |paths|)
  {
    if Problem(files, i) == None { StoppedForGood(order, limit, h, r, paths, Roots(files), i + 1, |paths|); }
  }

  lemma OnePassed(order: Order, limit: nat, h: Heap, r: Node, paths: seq<Source>, files: seq<File>, i: nat, l: Loaded)
    requires i < |paths| == |files| && GetsTo(order, limit, h, r, paths, files, i) && Problem(files, i) == None
    requires InPlace(order, limit, h, r, paths, Roots(files), i) == Some(l)
    ensures var next := AddInPlace(order, limit, l, r, files[i].root, paths[i]);
            && InPlace(order, limit, h, r, paths, Roots(files), i + 1) == next
            && (next.Some? ==> GetsTo(order, limit, h, r, paths, files, i + 1))
            && (next.None? ==> StopsAt(order, limit, h, r, paths, files, i, InterpreterError))
  {}

  /** The name is one of an entry with one of the first `n` keys. */
  ghost predicate NamedByOne(
    h: Heap, v: Node, prefix: string, depth: nat, keys: seq<Key>, n: nat, s: string)
    requires depth > 0 && v in h && n <= |keys| && forall k :: k in keys ==> k in h[v]
    requires forall j :: 0 <= j < n ==> ChildNames(h, v, keys[j], prefix, depth).Some?
  {
    exists j :: 0 <= j < n && s in EntryNames(h, v, keys[j], prefix, depth)
  }

  lemma NamesOfAll(h: Heap, v: Value, prefix: string, depth: nat, keys: seq<Key>, leaves: set<string>)
    requires depth > 0 && v.At? && v.node in h && forall k :: k in keys <==> k in h[v.node]
    requires forall j :: 0 <= j < |keys| ==> ChildNames(h, v.node, keys[j], prefix, depth).Some?
    requires forall s :: s in leaves <==> NamedByOne(h, v.node, prefix, depth, keys, |keys|, s)
    ensures LeafNames(h, v, prefix, depth) == Some(leaves)
  {
    forall k | k in h[v.node] ensures ChildNames(h, v.node, k, prefix, depth).Some? { assert k in keys; }
    var names := LeafNames(h, v, prefix, depth).value;
    forall s ensures s in leaves <==> s in names {
      if s in leaves {
        var j :| 0 <= j < |keys| && s in EntryNames(h, v.node, keys[j], prefix, depth);
        assert keys[j] in h[v.node];
      }
      if s in names {
        var k :| k in h[v.node] && s in EntryNames(h, v.node, k, prefix, depth);
        var j :| 0 <= j < |keys| && keys[j] == k;
        assert NamedByOne(h, v.node, prefix, depth, keys, |keys|, s);
      }
    }
    assert leaves == names;
  }

  lemma OneMoreName(
    h: Heap, v: Node, prefix: string, depth: nat, keys: seq<Key>, n: nat, leaves: set<string>)
    requires depth > 0 && v in h && n < |keys| && forall k :: k in keys ==> k in h[v]
    requires forall j :: 0 <= j <= n ==> ChildNames(h, v, keys[j], prefix, depth).Some?
    requires forall s :: s in leaves <==> NamedByOne(h, v, prefix, depth, keys, n, s)
    ensures forall s :: s in leaves + EntryNames(h, v, keys[n], prefix, depth) <==>
              NamedByOne(h, v, prefix, depth, keys, n + 1, s)
  {}

  class ConfigLoader {
    var heap: Heap
    const order: Order
    const limit: nat

    constructor (heap: Heap, order: Order, limit: nat)
      ensures this.heap == heap && this.order == order && this.limit == limit
    {
      this.heap, this.order, this.limit := heap, order, limit;
    }

    /** The deep merge of `overlay` into `target`, unless the interpreter stops it. */
    method DeepMerge(target: Node, overlay: Node, depth: nat) returns (done: bool)
      modifies this
      ensures var r := MergeInto(order, old(heap), target, overlay, depth);
              done == r.Some? && (r.Some? ==> heap == r.value)
      decreases depth
    {
      if depth == 0 || target !in heap || overlay !in heap { return false; }
      var keys := order(overlay, heap[overlay].Keys);
      var i := 0;
      while i < |keys|
        invariant 0 <= i <= |keys|
        invariant MergeItems(order, heap, target, overlay, keys, i, depth)
               == MergeInto(order, old(heap), target, overlay, depth)
      {
        if target !in heap || overlay !in heap || heap[overlay].Keys != Elements(keys) { return false; }
        var key := keys[i];
        assert key in Elements(keys);
        var value := heap[overlay][key];
        if key in heap[target] && heap[target][key].At? && value.At? {
          var merged := DeepMerge(heap[target][key].node, value.node, depth - 1);
          if !merged { return false; }
        } else {
          heap := Set(heap, target, key, value);
        }
        i := i + 1;
      }
      return target in heap && overlay in heap && heap[overlay].Keys == Elements(keys);
    }

    /** The names of all leaves below the value. */
    method LeafPathsOf(v: Value, prefix: string, depth: nat) returns (names: Option<set<string>>)
      ensures names == LeafNames(heap, v, prefix, depth)
      decreases depth
    {
      if depth == 0 { return None; }
      if !v.At? { return Some(if prefix == "" then {} else {prefix}); }
      if v.node !in heap { return None; }
      var leaves := {};
      var keys := Listing(heap[v.node].Keys);
      var i := 0;
      while i < |keys|
        invariant 0 <= i <= |keys|
        invariant forall j :: 0 <= j < i ==> ChildNames(heap, v.node, keys[j], prefix, depth).Some?
        invariant forall s :: s in leaves <==> NamedByOne(heap, v.node, prefix, depth, keys, i, s)
      {
        var path := Join(prefix, keys[i]);
        var child := LeafPathsOf(heap[v.node][keys[i]], path, depth - 1);
        if child == None { return None; }
        OneMoreName(heap, v.node, prefix, depth, keys, i, leaves);
        leaves := leaves + Named(child.value, path);
        i := i + 1;
      }
      NamesOfAll(heap, v, prefix, depth, keys, leaves);
      return Some(leaves);
    }

    /** Merges one file into `r` and records all its leaves as its own. */
    method AddLayer(sources: map<string, Source>, r: Node, root: Node, source: Source)
      returns (next: Option<map<string, Source>>)
      modifies this
      ensures var l := AddInPlace(order, limit, Loaded(old(heap), sources), r, root, source);
              next.Some? == l.Some? && (l.Some? ==> l.value == Loaded(heap, next.value))
    {
      var merged := DeepMerge(r, root, limit);
      if !merged { return None; }
      var names := LeafPathsOf(At(root), "", limit);
      if names == None { return None; }
      return Some(Record(sources, names.value, source));
    }

    /** The layer loop: every file is added, or the loop gives up at the first one that it cannot pass. */
    method LoadLayers(r: Node, paths: seq<Source>, files: seq<File>) returns (sources: Result<map<string, Source>>)
      requires |paths| == |files|
      modifies this
      ensures sources.Ok? <==> GetsTo(order, limit, old(heap), r, paths, files, |paths|)
      ensures sources.Ok? ==>
                InPlace(order, limit, old(heap), r, paths, Roots(files), |paths|) == Some(Loaded(heap, sources.value))
      ensures sources.Refused? ==>
                exists i :: 0 <= i < |paths| && StopsAt(order, limit, old(heap), r, paths, files, i, sources.code)
    {
      var found, expected := map[], None;
      ghost var h := heap;
      var i := 0;
      while i < |paths|
        invariant 0 <= i <= |paths|
        invariant GetsTo(order, limit, h, r, paths, files, i)
        invariant InPlace(order, limit, h, r, paths, Roots(files), i) == Some(Loaded(heap, found))
        invariant expected == if i == 0 then None else files[i - 1].version
        invariant i > 0 ==> expected.Some?
      {
        if !files[i].readable {
          assert StopsAt(order, limit, h, r, paths, files, i, Configuration);
          StopsForGood(order, limit, h, r, paths, files, i, Configuration);
          return Refused(Configuration);
        }
        if files[i].version == None || (expected.Some? && files[i].version != expected) {
          assert StopsAt(order, limit, h, r, paths, files, i, VersionError);
          StopsForGood(order, limit, h, r, paths, files, i, VersionError);
          return Refused(VersionError);
        }
        expected := files[i].version;
        OnePassed(order, limit, h, r, paths, files, i, Loaded(heap, found));
        var next := AddLayer(found, r, files[i].root, paths[i]);
        if next == None {
          assert StopsAt(order, limit, h, r, paths, files, i, InterpreterError);
          StopsForGood(order, limit, h, r, paths, files, i, InterpreterError);
          return Refused(InterpreterError);
        }
        found := next.value;
        i := i + 1;
      }
      return Ok(found);
    }

    /** Merges the files into the new mapping `r`, and accepts the result exactly when it is valid. */
    method Load(r: Node, paths: seq<Source>, files: seq<File>, valid: (Heap, Node) -> bool)
      returns (sources: Result<map<string, Source>>)
      requires |paths| == |files| && r !in heap
      modifies this
      ensures sources.Ok? <==> Loads(order, limit, WithNew(old(heap), r), r, paths, files, valid)
      ensures sources.Ok? ==>
                InPlace(order, limit, WithNew(old(heap), r), r, paths, Roots(files), |paths|)
                  == Some(Loaded(heap, sources.value))
      ensures sources.Refused? && (paths == []
              || GetsTo(order, limit, WithNew(old(heap), r), r, paths, files, |paths|)) ==>
                sources.code == Configuration
      ensures sources.Refused? && paths != []
              && !GetsTo(order, limit, WithNew(old(heap), r), r, paths, files, |paths|) ==>
                exists i :: 0 <= i < |paths|
                            && StopsAt(order, limit, WithNew(old(heap), r), r, paths, files, i, sources.code)
    {
      if paths == [] { return Refused(Configuration); }
      heap := WithNew(heap, r);
      sources := LoadLayers(r, paths, files);
      if sources.Ok? && (r !in heap || !Accepts(valid, heap, r)) { return Refused(Configuration); }
    }
  }


  /* ---------- what a load that returns guarantees ---------- */

  /** A merge never drops a top-level key. */
  lemma {:induction false} TopLevelKeysSurvive(files: map<Source, Json>, paths: seq<Source>, n: nat, i: nat, k: Key)
    requires i < n <= |paths| && Readable(files, paths, n) && k in files[paths[i]].entries
    ensures k in Layered(files, paths, n).merged.entries
  {
    MergedEntry(Layered(files, paths, n - 1).merged, files[paths[n - 1]], k);
    if i < n - 1 { TopLevelKeysSurvive(files, paths, n - 1, i, k); }
  }

  /** The files that are read hold these documents, without aliases. */
  ghost predicate Unshared(
    h: Heap, r: Node, documents: map<Source, Json>, paths: seq<Source>, files: seq<File>)
  {
    && Stack(h, r, documents, paths, Roots(files))
    && forall i :: 0 <= i < |paths| ==> Unaliased(h, At(files[i].root))
  }

  lemma UnsharedIsTrees(h: Heap, r: Node, documents: map<Source, Json>, paths: seq<Source>, files: seq<File>)
    requires Unshared(h, r, documents, paths, files)
    ensures Trees(h, r, documents, paths, Roots(files))
  {
    forall i | 0 <= i < |paths| ensures Tree(h, At(Roots(files)[i]), documents[paths[i]]) {
      assert Parsed(h, r, Roots(files)[i], documents[paths[i]]);
      UnaliasedIsTree(h, At(files[i].root), documents[paths[i]]);
    }
  }

  /** Files without aliases are loaded as their contents: what is merged in place is the merge of the
      documents, with its recorded sources; and a load of such files gets through if the recursion limit does
      not stop it. */
  lemma UnsharedFilesLoadAsContents(
    order: Order, limit: nat, h: Heap, r: Node, documents: map<Source, Json>, paths: seq<Source>, files: seq<File>)
    requires Ordering(order) && Unshared(h, r, documents, paths, files)
    ensures var l := InPlace(order, limit, h, r, paths, Roots(files), |paths|);
            && (l.Some? ==> Holds(l.value.heap, At(r), Layered(documents, paths, |paths|).merged)
                            && l.value.sources == Layered(documents, paths, |paths|).sources)
            && (l.None? ==> exists i :: 0 <= i < |paths| && !Fits(documents[paths[i]], limit))
  {
    UnsharedIsTrees(h, r, documents, paths, files);
    UnaliasedLayers(order, limit, h, r, documents, paths, Roots(files), |paths|);
  }

  /** With dot-free keys and no aliases, every value of every configuration that a load returns has a recorded
      source, and that file holds at the same path what the configuration holds. */
  lemma LoadedProvenanceIsRight(
    order: Order, limit: nat, h: Heap, r: Node, documents: map<Source, Json>, paths: seq<Source>, files: seq<File>,
    valid: (Heap, Node) -> bool)
    requires Ordering(order) && Unshared(h, r, documents, paths, files)
    requires DocumentsWithin(documents, paths, DotFreePath) && Loads(order, limit, h, r, paths, files, valid)
    ensures RightInPlace(documents, InPlace(order, limit, h, r, paths, Roots(files), |paths|).value, r)
  {
    UnsharedIsTrees(h, r, documents, paths, files);
    UnsharedFilesLoadAsContents(order, limit, h, r, documents, paths, files);
    EmptyKeyIsNotDeclared();
    forall i | 0 <= i < |paths| ensures "" !in documents[paths[i]].entries {
      if "" in documents[paths[i]].entries { TopLevelKeysSurvive(documents, paths, |paths|, i, ""); }
    }
    UnaliasedIsRight(order, limit, h, r, documents, paths, Roots(files));
  }

  /* ---------- a mapping at two places ---------- */

  /** Two readable files of one version. */
  function Pair(root: Node, o: Node, version: nat): seq<File> {
    [File(true, root, Some(version)), File(true, o, Some(version))]
  }

  /** A base file has one mapping object at two key paths, and an overlay gives a value in it another one by
      the first path. Whenever the validator accepts the outcome, the load returns with the overlay's value at
      the second path too, and still names the base file for it, which holds the old one. */
  lemma AliasMisreports(
    order: Order, limit: nat, h: Heap, r: Node, root: Node, document: Json, s: int, p: seq<Key>, f: seq<Key>, n: Node,
    o: Node, k: Key, x: int, version: nat, valid: (Heap, Node) -> bool)
    requires Ordering(order) && SetsShared(h, r, root, document, s, p, ByKeys(f), n, o, k, x)
    requires k in h[n] && limit > |p| + 1 && Fits(document, limit) && r in h && root in h
    requires Accepts(valid, Set(h[r := h[root]], n, k, Plain(x)), r)
    ensures Loads(order, limit, h, r, [0, 1], Pair(root, o, version), valid)
    ensures var l := InPlace(order, limit, h, r, [0, 1], Roots(Pair(root, o, version)), 2).value;
            && Follow(l.heap, At(r), ByKeys(f + [k])) == Some(Plain(x))
            && Render(f + [k]) in l.sources && l.sources[Render(f + [k])] == 0
            && Lookup(document, f + [k]) == Some(Scalar(h[n][k].value)) && h[n][k].value != x
  {
    assert Roots(Pair(root, o, version)) == [root, o];
    BothLayers(order, limit, h, r, root, document, s, p, ByKeys(f), n, o, k, x, 0, 1);
    OldValueIsNamed(h, r, root, document, s, p, f, n, o, k, x);
  }

  lemma OldValueIsNamed(
    h: Heap, r: Node, root: Node, document: Json, s: int, p: seq<Key>, f: seq<Key>, n: Node, o: Node, k: Key, x: int)
    requires SetsShared(h, r, root, document, s, p, ByKeys(f), n, o, k, x) && k in h[n] && root in h
    ensures var l := AfterBoth(h, r, root, document, s, p, n, k, x, 0, 1);
            && Follow(l.heap, At(r), ByKeys(f + [k])) == Some(Plain(x))
            && Render(f + [k]) in l.sources && l.sources[Render(f + [k])] == 0
    ensures Lookup(document, f + [k]) == Some(Scalar(h[n][k].value))
  {
    SharedPaths(h, r, root, document, s, p, ByKeys(f), n);
    var l, leaf := AfterBoth(h, r, root, document, s, p, n, k, x, 0, 1), f + [k];
    WaysAfterBoth(h, r, root, document, s, p, ByKeys(f), n, o, k, x, ByKeys(f));
    ByKeysEnd(f, k);
    LastStep(l.heap, At(r), ByKeys(f), n, k);
    LastStep(h, At(root), ByKeys(f), n, k);
    LeafIsNamed(h, root, document, leaf);
    CleanPath(h, root, document, f);
    CleanPath(h, root, document, p);
    LongerPaths(p, f, k);
    FirstIsNamed(h, r, root, document, s, p, n, k, x, 0, 1, leaf);
  }

  lemma LeafIsNamed(h: Heap, root: Node, document: Json, leaf: seq<Key>)
    requires Holds(h, At(root), document) && document.Mapping? && leaf != []
    requires var v := Follow(h, At(root), ByKeys(leaf)); v.Some? && v.value.Plain?
    ensures Render(leaf) in LeafPaths(document, "")
    ensures Lookup(document, leaf) == Some(Scalar(Follow(h, At(root), ByKeys(leaf)).value.value))
  {
    HoldsAlong(h, At(root), document, ByKeys(leaf));
    BelowByKeys(document, leaf);
    LeafPathsExactly(document, Render(leaf));
    assert LeafAt(document, leaf);
  }

  /* ---------- a key with a dot ---------- */

  /** Three layers: a complete configuration whose routes use one dotted key; a layer that nests the
      same name; and a layer that replaces the nested mapping by a route. */
  function DottedLayers(complete: map<Key, Json>, route: Json): map<Source, Json>
    requires "schema_version" in complete
  {
    var version := complete["schema_version"];
    map[0 := Mapping(complete["agent_routes" := Mapping(map["p.q" := route])]),
        1 := Mapping(map["schema_version" := version,
          "agent_routes" := Mapping(map["p" := Mapping(map["q" := route])])]),
        2 := Mapping(map["schema_version" := version, "agent_routes" := Mapping(map["p" := route])])]
  }

  /** What the three layers merge to: two plain routes. */
  function DottedMerge(complete: map<Key, Json>, route: Json): Json {
    Mapping(complete["agent_routes" := Mapping(map["p.q" := route, "p" := route])])
  }

  const DOTTED: seq<Key> := ["agent_routes", "p.q"]

  lemma RoutesMerge(route: Json)
    requires route.Scalar?
    ensures var dotted, nested := Mapping(map["p.q" := route]), Mapping(map["p" := Mapping(map["q" := route])]);
            && Merge(dotted, nested) == Mapping(map["p.q" := route, "p" := Mapping(map["q" := route])])
            && Merge(Merge(dotted, nested), Mapping(map["p" := route])) == Mapping(map["p.q" := route, "p" := route])
  {}

  lemma OverlayRoutes(complete: map<Key, Json>, version: Json, routes: Json, overlay: Json)
    requires routes.Mapping? && overlay.Mapping? && version.Scalar?
    requires "schema_version" in complete && complete["schema_version"] == version
    ensures Merge(Mapping(complete["agent_routes" := routes]),
            Mapping(map["schema_version" := version, "agent_routes" := overlay]))
              == Mapping(complete["agent_routes" := Merge(routes, overlay)])
  {
    var t, o := Mapping(complete["agent_routes" := routes]),
      Mapping(map["schema_version" := version, "agent_routes" := overlay]);
    forall k ensures k in Merge(t, o).entries <==> k in complete["agent_routes" := Merge(routes, overlay)]
      ensures k in Merge(t, o).entries ==>
              Merge(t, o).entries[k] == complete["agent_routes" := Merge(routes, overlay)][k]
    {
      MergedEntry(t, o, k);
    }
    assert Merge(t, o).entries == complete["agent_routes" := Merge(routes, overlay)];
  }

  lemma DottedLayersMerge(complete: map<Key, Json>, route: Json)
    requires "schema_version" in complete && complete["schema_version"].Scalar? && route.Scalar?
    ensures Readable(DottedLayers(complete, route), [0, 1, 2], 3)
    ensures Layered(DottedLayers(complete, route), [0, 1, 2], 3).merged == DottedMerge(complete, route)
  {
    var files, version := DottedLayers(complete, route), complete["schema_version"];
    var dotted, nested := Mapping(map["p.q" := route]), Mapping(map["p" := Mapping(map["q" := route])]);
    MergeNothing(files[0]);
    assert Layered(files, [0, 1, 2], 0).merged == Nothing;
    assert Layered(files, [0, 1, 2], 1).merged == files[0];
    OverlayRoutes(complete, version, dotted, nested);
    OverlayRoutes(complete, version, Merge(dotted, nested), Mapping(map["p" := route]));
    assert Layered(files, [0, 1, 2], 2).merged == Mapping(complete["agent_routes" := Merge(dotted, nested)]);
    RoutesMerge(route);
  }

  lemma DottedSources(complete: map<Key, Json>, route: Json)
    requires "schema_version" in complete && complete["schema_version"].Scalar? && route.Scalar?
    requires Readable(DottedLayers(complete, route), [0, 1, 2], 3)
    ensures var e := Layered(DottedLayers(complete, route), [0, 1, 2], 3);
            Render(DOTTED) in e.sources && e.sources[Render(DOTTED)] == 1
  {
    var files, p := DottedLayers(complete, route), ["agent_routes", "p", "q"];
    DottedNames();
    assert p[1..] == ["p", "q"] && ["p", "q"][1..] == ["q"] && ["q"][1..] == [];
    assert Lookup(Mapping(map["q" := route]), ["q"]) == Some(route);
    assert Lookup(Mapping(map["p" := Mapping(map["q" := route])]), ["p", "q"]) == Some(route);
    assert Lookup(files[1], p) == Some(route) && LeafAt(files[1], p);
    LeafPathsExactly(files[1], Render(DOTTED));
    ThirdIsSilent(complete, route);
  }

  lemma JoinedNames()
    ensures Join("agent_routes", "p.q") == "agent_routes.p.q"
    ensures Join("agent_routes", "p") == "agent_routes.p" && Join("agent_routes.p", "q") == "agent_routes.p.q"
  {
    assert "agent_routes" + "." + "p.q" == "agent_routes.p.q";
    assert "agent_routes" + "." + "p" == "agent_routes.p";
    assert "agent_routes.p" + "." + "q" == "agent_routes.p.q";
  }

  lemma DottedNames()
    ensures Render(DOTTED) == Render(["agent_routes", "p", "q"]) == "agent_routes.p.q"
  {
    JoinedNames();
    assert DOTTED[1..] == ["p.q"] && ["p.q"][1..] == [];
    assert ["agent_routes", "p", "q"][1..] == ["p", "q"] && ["p", "q"][1..] == ["q"] && ["q"][1..] == [];
    assert Join("", "agent_routes") == "agent_routes";
    assert RenderFrom("agent_routes.p", ["q"]) == RenderFrom("agent_routes.p.q", []);
    assert RenderFrom("agent_routes", ["p", "q"]) == RenderFrom("agent_routes.p", ["q"]);
    assert RenderFrom("agent_routes", ["p.q"]) == RenderFrom("agent_routes.p.q", []);
  }

  /** No leaf of the third layer bears the name. */
  lemma ThirdIsSilent(complete: map<Key, Json>, route: Json)
    requires "schema_version" in complete && complete["schema_version"].Scalar? && route.Scalar?
    ensures "agent_routes.p.q" !in LeafPaths(DottedLayers(complete, route)[2], "")
  {
    var routes := Mapping(map["p" := route]);
    JoinedNames();
    assert Join("", "agent_routes") == "agent_routes" && Join("", "schema_version") == "schema_version";
    assert LeafPaths(route, "agent_routes.p") == {"agent_routes.p"};
    assert Named({"agent_routes.p"}, "agent_routes.p") == {"agent_routes.p"};
    forall s | s in LeafPaths(routes, "agent_routes") ensures s == "agent_routes.p" {
      var k :| k in routes.entries && s in Named(LeafPaths(routes.entries[k], Join("agent_routes", k)),
        Join("agent_routes", k));
      assert k == "p";
    }
    assert |"agent_routes.p"| != |"agent_routes.p.q"|;
  }

  lemma FindDotted(document: map<Key, Json>, routes: map<Key, Json>)
    ensures Lookup(Mapping(document["agent_routes" := Mapping(routes)]), DOTTED)
              == if "p.q" in routes then Some(routes["p.q"]) else None
  {
    assert DOTTED[1..] == ["p.q"] && ["p.q"][1..] == [];
    var m := Mapping(routes);
    assert Lookup(m, ["p.q"]) == if "p.q" in routes then Some(routes["p.q"]) else None;
  }

  /** Three readable files of one version. */
  function ThreeFiles(roots: seq<Node>, version: nat): seq<File>
    requires |roots| == 3
  {
    [File(true, roots[0], Some(version)), File(true, roots[1], Some(version)), File(true, roots[2], Some(version))]
  }

  /** A key with a dot can mislead: whenever the validator accepts two plain routes, a load of files with these
      three documents returns a source for `agent_routes["p.q"]` that holds no such key. */
  lemma DottedKeyMisreports(
    order: Order, limit: nat, h: Heap, r: Node, complete: map<Key, Json>, route: Json, roots: seq<Node>, version: nat,
    valid: (Heap, Node) -> bool)
    requires "schema_version" in complete && complete["schema_version"].Scalar? && route.Scalar? && |roots| == 3
    requires var documents := DottedLayers(complete, route);
             Ordering(order) && Unshared(h, r, documents, [0, 1, 2], ThreeFiles(roots, version))
             && forall i :: 0 <= i < 3 ==> Fits(documents[i], limit)
    requires forall h' :: Holds(h', At(r), DottedMerge(complete, route)) ==> Accepts(valid, h', r)
    ensures var l := InPlace(order, limit, h, r, [0, 1, 2], Roots(ThreeFiles(roots, version)), 3);
            && Loads(order, limit, h, r, [0, 1, 2], ThreeFiles(roots, version), valid)
            && !RightInPlace(DottedLayers(complete, route), l.value, r)
  {
    DottedOutcome(order, limit, h, r, complete, route, ThreeFiles(roots, version));
    ThreeFilesAreClean(roots, version);
    var l := InPlace(order, limit, h, r, [0, 1, 2], Roots(ThreeFiles(roots, version)), 3).value;
    DottedValueIsWrong(complete, route, l, r);
  }

  lemma ThreeFilesAreClean(roots: seq<Node>, version: nat)
    requires |roots| == 3
    ensures Clean(ThreeFiles(roots, version), 3)
  {}

  lemma DottedOutcome(
    order: Order, limit: nat, h: Heap, r: Node, complete: map<Key, Json>, route: Json, files: seq<File>)
    requires "schema_version" in complete && complete["schema_version"].Scalar? && route.Scalar? && |files| == 3
    requires Ordering(order) && Unshared(h, r, DottedLayers(complete, route), [0, 1, 2], files)
    requires forall i :: 0 <= i < 3 ==> Fits(DottedLayers(complete, route)[i], limit)
    ensures var l := InPlace(order, limit, h, r, [0, 1, 2], Roots(files), 3);
            && l.Some? && Holds(l.value.heap, At(r), DottedMerge(complete, route))
            && Render(DOTTED) in l.value.sources && l.value.sources[Render(DOTTED)] == 1
  {
    UnsharedFilesLoadAsContents(order, limit, h, r, DottedLayers(complete, route), [0, 1, 2], files);
    DottedLayersMerge(complete, route);
    DottedSources(complete, route);
  }

  lemma DottedValueIsWrong(complete: map<Key, Json>, route: Json, l: Loaded, r: Node)
    requires "schema_version" in complete && route.Scalar?
    requires Holds(l.heap, At(r), DottedMerge(complete, route))
    requires Render(DOTTED) in l.sources && l.sources[Render(DOTTED)] == 1
    ensures !RightInPlace(DottedLayers(complete, route), l, r)
  {
    FindDotted(complete, map["p.q" := route, "p" := route]);
    FindDotted(map["schema_version" := complete["schema_version"]], map["p" := Mapping(map["q" := route])]);
    HoldsAlong(l.heap, At(r), DottedMerge(complete, route), ByKeys(DOTTED));
    BelowByKeys(DottedMerge(complete, route), DOTTED);
    assert LeafInPlace(l.heap, r, DOTTED) && !RightValue(DottedLayers(complete, route), l, r, DOTTED);
  }
}
