/** Which files without aliases a load accepts, and with which code it refuses the others. */
module ConfigOutcomes {
  import opened Outcomes
  import opened ConfigMerge
  import opened ConfigObjects
  import opened ConfigAliases
  import opened ConfigLoading

  /** The first `n` files are string-keyed mappings of one supported schema version. */
  predicate Uniform(files: seq<File>, n: nat)
    requires n <= |files|
  {
    && (forall i :: 0 <= i < n ==> files[i].readable && files[i].version.Some?)
    && forall i, j :: 0 <= i < n && 0 <= j < n ==> files[i].version == files[j].version
  }

  lemma {:induction false} CleanIsUniform(files: seq<File>, n: nat)
    requires n <= |files|
    ensures Clean(files, n) <==> Uniform(files, n)
  {
    if n > 0 {
      CleanIsUniform(files, n - 1);
      if Clean(files, n) {
        assert Problem(files, n - 1) == None;
        assert Uniform(files, n);
      }
      if Uniform(files, n) {
        assert Problem(files, n - 1) == None by { if n > 1 { assert files[n - 1].version == files[n - 2].version; } }
        assert Clean(files, n);
      }
    }
  }

  /** None of the files is nested deeper than the interpreter can follow. */
  predicate AllFit(documents: map<Source, Json>, paths: seq<Source>, limit: nat) {
    forall i :: 0 <= i < |paths| ==> paths[i] in documents && Fits(documents[paths[i]], limit)
  }

  lemma LoopEnds(
    order: Order, limit: nat, h: Heap, r: Node, documents: map<Source, Json>, paths: seq<Source>, files: seq<File>,
    n: nat)
    requires Ordering(order) && Unshared(h, r, documents, paths, files) && AllFit(documents, paths, limit)
    requires n <= |paths|
    ensures InPlace(order, limit, h, r, paths, Roots(files), n).Some?
  {
    UnsharedIsTrees(h, r, documents, paths, files);
    UnaliasedLayers(order, limit, h, r, documents, paths, Roots(files), n);
    AtEveryLayer(order, limit, h, r, documents, paths, Roots(files), n);
  }

  lemma AtEveryLayer(
    order: Order, limit: nat, h: Heap, r: Node, documents: map<Source, Json>, paths: seq<Source>, roots: seq<Node>,
    n: nat)
    requires Stack(h, r, documents, paths, roots) && n <= |paths| && AllFit(documents, paths, limit)
    requires AsContents(order, limit, h, r, documents, paths, roots, n)
    ensures InPlace(order, limit, h, r, paths, roots, n).Some?
  {}

  /** Files without aliases are loaded exactly when there is one at least, all are readable and of one supported
      version, every top-level key of their merged documents is a declared field, and the validator accepts the
      values. */
  lemma LoadsExactly(
    order: Order, limit: nat, h: Heap, r: Node, documents: map<Source, Json>, paths: seq<Source>, files: seq<File>,
    valid: (Heap, Node) -> bool)
    requires Ordering(order) && Unshared(h, r, documents, paths, files) && AllFit(documents, paths, limit)
    requires |paths| == |files|
    ensures InPlace(order, limit, h, r, paths, Roots(files), |paths|).Some?
    ensures Loads(order, limit, h, r, paths, files, valid) <==>
            && paths != [] && Uniform(files, |files|)
            && (forall k :: k in Layered(documents, paths, |paths|).merged.entries ==> k in FIELDS)
            && valid(InPlace(order, limit, h, r, paths, Roots(files), |paths|).value.heap, r)
  {
    LoopEnds(order, limit, h, r, documents, paths, files, |paths|);
    CleanIsUniform(files, |files|);
    UnsharedFilesLoadAsContents(order, limit, h, r, documents, paths, files);
  }

  lemma ProblemOf(files: seq<File>, i: nat)
    requires i < |files| && Uniform(files, i)
    ensures Problem(files, i) ==
            if Uniform(files, i + 1) then None else Some(if files[i].readable then VersionError else Configuration)
  {
    CleanIsUniform(files, i);
    CleanIsUniform(files, i + 1);
    assert Clean(files, i + 1) <==> Clean(files, i) && Problem(files, i) == None;
  }

  /** The layer loop over them stops exactly at the first file that is not of one kind with those before it: it is a
      configuration error if the file cannot be read as a mapping, and else a version error. */
  lemma StopsExactly(
    order: Order, limit: nat, h: Heap, r: Node, documents: map<Source, Json>, paths: seq<Source>, files: seq<File>,
    i: nat, code: Code)
    requires Ordering(order) && Unshared(h, r, documents, paths, files) && AllFit(documents, paths, limit)
    requires i < |paths| == |files|
    ensures StopsAt(order, limit, h, r, paths, files, i, code) <==>
            && Uniform(files, i) && !Uniform(files, i + 1)
            && code == if files[i].readable then VersionError else Configuration
  {
    LoopGoesThrough(order, limit, h, r, documents, paths, files);
    OnlyProblemsStop(order, limit, h, r, paths, files, i, code);
    CleanIsUniform(files, i);
    if Uniform(files, i) { ProblemOf(files, i); }
  }

  lemma LoopGoesThrough(
    order: Order, limit: nat, h: Heap, r: Node, documents: map<Source, Json>, paths: seq<Source>, files: seq<File>)
    requires Ordering(order) && Unshared(h, r, documents, paths, files) && AllFit(documents, paths, limit)
    requires |paths| == |files|
    ensures forall n :: 0 <= n <= |paths| ==> InPlace(order, limit, h, r, paths, Roots(files), n).Some?
  {
    forall n | 0 <= n <= |paths| ensures InPlace(order, limit, h, r, paths, Roots(files), n).Some? {
      LoopEnds(order, limit, h, r, documents, paths, files, n);
    }
  }

  lemma OnlyProblemsStop(
    order: Order, limit: nat, h: Heap, r: Node, paths: seq<Source>, files: seq<File>, i: nat, code: Code)
    requires i < |paths| == |files|
    requires InPlace(order, limit, h, r, paths, Roots(files), i).Some?
    requires InPlace(order, limit, h, r, paths, Roots(files), i + 1).Some?
    ensures StopsAt(order, limit, h, r, paths, files, i, code) <==> Clean(files, i) && Problem(files, i) == Some(code)
  {}
}
