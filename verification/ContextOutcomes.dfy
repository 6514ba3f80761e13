/** What a finished pack takes from the artifacts and the manifest, and what verification compares. */
module ContextOutcomes {
  import opened Outcomes
  import opened ContextPack
  import opened ContextResults

  /** An entry is read exactly from a usable artifact whose record and whose bytes both have the entry's digest and
      size, and whose record has its media type and sensitivity. */
  lemma ReadExactly(c: Codec, a: Artifacts, e: Entry, content: Bytes)
    ensures ReadVerified(c, a, e) == Some(content) <==>
            && e.reference in a && a[e.reference].usable && a[e.reference].content == content
            && a[e.reference].digest == e.digest && c.digest(content) == e.digest
            && a[e.reference].size == e.size && |content| == e.size
            && a[e.reference].media == e.media && a[e.reference].sensitivity == e.sensitivity
  {}

  /** The file of every written entry holds the artifact's bytes. */
  lemma PackedFilesExactly(c: Codec, a: Artifacts, m: Manifest, w: Written)
    requires Valid(c, m) && Materialize(c, a, m).Ok? && w in Materialize(c, a, m).value.1.entries
    ensures var t := Materialize(c, a, m).value.0;
            && PlaceOf(c, w.path) in t.files && w.reference in a
            && t.files[PlaceOf(c, w.path)] == a[w.reference].content
            && c.digest(a[w.reference].content) == w.digest && |a[w.reference].content| == w.size
            && w.size <= m.maxEntryBytes
  {
    MaterializesExactly(c, a, m);
    WrittenFrom(c, a, m.entries, |m.entries|, w);
    var i: nat :| Placed(c, a, m.entries, |m.entries|, i) && w == WrittenFor(m.entries[i]);
    var (t, r) := Materialize(c, a, m).value;
    assert PlaceOf(c, w.path) in t.files - {Metadata(c)};
  }

  /* ---------- order ---------- */

  /** Entry `k` of the written ones comes from entry `i` of the manifest. */
  predicate CameFrom(es: seq<Entry>, ws: seq<Written>, k: nat, i: nat) {
    k < |ws| && i < |es| && ws[k] == WrittenFor(es[i])
  }

  lemma {:induction false} WrittenInOrder(c: Codec, a: Artifacts, es: seq<Entry>, n: nat, k: nat, l: nat)
    requires n <= |es| && k < l < |WrittenOf(c, a, es, n)|
    ensures exists i: nat, j: nat ::
              i < j < n && CameFrom(es, WrittenOf(c, a, es, n), k, i) && CameFrom(es, WrittenOf(c, a, es, n), l, j)
  {
    var before, ws := WrittenOf(c, a, es, n - 1), WrittenOf(c, a, es, n);
    if l < |before| {
      WrittenInOrder(c, a, es, n - 1, k, l);
      var i: nat, j: nat :| i < j < n - 1 && CameFrom(es, before, k, i) && CameFrom(es, before, l, j);
      assert CameFrom(es, ws, k, i) && CameFrom(es, ws, l, j);
    } else {
      assert before[k] in before;
      WrittenFrom(c, a, es, n - 1, before[k]);
      var i: nat :| Placed(c, a, es, n - 1, i) && before[k] == WrittenFor(es[i]);
      assert CameFrom(es, ws, k, i) && CameFrom(es, ws, l, n - 1);
    }
  }

  lemma {:induction false} NotAfterReflexive(x: string)
    ensures NotAfter(x, x)
  {
    if x != "" { NotAfterReflexive(x[1..]); }
  }

  lemma {:induction false} NotAfterTransitive(x: string, y: string, z: string)
    requires NotAfter(x, y) && NotAfter(y, z)
    ensures NotAfter(x, z)
  {
    if x != "" && y != "" && z != "" && x[0] == y[0] && y[0] == z[0] { NotAfterTransitive(x[1..], y[1..], z[1..]); }
  }

  lemma {:induction false} EntriesAreOrdered(es: seq<Entry>, i: nat, j: nat)
    requires i < j < |es| && forall n :: 0 <= n < |es| - 1 ==> Ordered(es[n], es[n + 1])
    ensures Ordered(es[i], es[j])
  {
    assert Ordered(es[j - 1], es[j]) by { assert Ordered(es[j - 1], es[j - 1 + 1]); }
    if i < j - 1 {
      EntriesAreOrdered(es, i, j - 1);
      if es[i].order == es[j - 1].order && es[j - 1].order == es[j].order {
        NotAfterTransitive(es[i].path, es[j - 1].path, es[j].path);
      }
    }
  }

  /** Both entries come from the manifest, where the first is before the second by order number, or by path. */
  predicate KeepOrder(es: seq<Entry>, ws: seq<Written>, k: nat, l: nat, i: nat, j: nat) {
    && i < j && CameFrom(es, ws, k, i) && CameFrom(es, ws, l, j)
    && (es[i].order < es[j].order || (es[i].order == es[j].order && NotAfter(ws[k].path, ws[l].path)))
  }

  lemma WrittenKeepOrder(c: Codec, a: Artifacts, es: seq<Entry>, k: nat, l: nat)
    requires k < l < |WrittenOf(c, a, es, |es|)|
    requires forall n :: 0 <= n < |es| - 1 ==> Ordered(es[n], es[n + 1])
    ensures exists i: nat, j: nat :: KeepOrder(es, WrittenOf(c, a, es, |es|), k, l, i, j)
  {
    var ws := WrittenOf(c, a, es, |es|);
    WrittenInOrder(c, a, es, |es|, k, l);
    var i: nat, j: nat :| i < j < |es| && CameFrom(es, ws, k, i) && CameFrom(es, ws, l, j);
    EntriesAreOrdered(es, i, j);
    assert KeepOrder(es, ws, k, l, i, j);
  }

  /** Entries are written in the manifest's own order, which is by order number and then by path. */
  lemma PacksKeepOrder(c: Codec, a: Artifacts, m: Manifest, k: nat, l: nat)
    requires Valid(c, m) && Materialize(c, a, m).Ok? && k < l < |Materialize(c, a, m).value.1.entries|
    ensures exists i: nat, j: nat :: KeepOrder(m.entries, Materialize(c, a, m).value.1.entries, k, l, i, j)
  {
    MaterializesExactly(c, a, m);
    WrittenKeepOrder(c, a, m.entries, k, l);
  }

  /* ---------- manifests ---------- */

  /** The entry comes before the other by order number, or by path. */
  predicate Precedes(x: Entry, y: Entry) { x.order < y.order || (x.order == y.order && NotAfter(x.path, y.path)) }

  /** No two entries have the same path, even where case does not matter, or one at or below the other's. */
  predicate PathsDiffer(c: Codec, es: seq<Entry>) {
    && (forall i, j :: 0 <= i < j < |es| ==> es[i].path != es[j].path && c.fold(es[i].path) != c.fold(es[j].path))
    && forall x, y :: x in es && y in es ==> !(PartsOf(x.path) < PartsOf(y.path))
  }

  /** Some entry is required and stands for the artifact. */
  predicate Requires(es: seq<Entry>, artifact: (Text, Text)) {
    exists e :: e in es && e.required && e.reference == artifact.0 && e.digest == artifact.1
  }

  /** The skills were all loaded, each once, for this task and identity, and every content that they loaded has an
      entry. */
  predicate LoadsAreListed(m: Manifest) {
    && (forall i, j :: 0 <= i < j < |m.loads| ==> m.loads[i].skill != m.loads[j].skill)
    && forall l :: l in m.loads ==>
         && l.task == m.task && l.identity == m.identity && !l.miss
         && forall d :: d in l.digests ==> exists e :: e in m.entries && e.digest == d
  }

  lemma LoadsExactly(m: Manifest)
    ensures ValidLoads(m) <==> LoadsAreListed(m)
  {
    forall d ensures HasDigest(m, d) <==> exists e :: e in m.entries && e.digest == d {
      if e :| e in m.entries && e.digest == d { var i :| 0 <= i < |m.entries| && m.entries[i] == e; }
    }
    if ValidLoads(m) {
      forall l | l in m.loads
        ensures && l.task == m.task && l.identity == m.identity && !l.miss
                && forall d :: d in l.digests ==> HasDigest(m, d)
      {
        var i :| 0 <= i < |m.loads| && m.loads[i] == l;
      }
    }
  }

  lemma NamedExactly(es: seq<Entry>, artifact: (Text, Text))
    ensures (exists i :: 0 <= i < |es| && Names(es[i], artifact)) <==> Requires(es, artifact)
  {
    if e :| e in es && e.required && e.reference == artifact.0 && e.digest == artifact.1 {
      var i :| 0 <= i < |es| && es[i] == e;
      assert Names(es[i], artifact);
    }
  }

  predicate ContractsAreThere(m: Manifest) { Requires(m.entries, m.output) && Requires(m.entries, m.verification) }

  lemma ContractsExactly(m: Manifest)
    ensures ContractsAreThere(m) <==>
            && (exists i :: 0 <= i < |m.entries| && Names(m.entries[i], m.output))
            && (exists i :: 0 <= i < |m.entries| && Names(m.entries[i], m.verification))
  {
    NamedExactly(m.entries, m.output);
    NamedExactly(m.entries, m.verification);
  }

  lemma PathsExactly(c: Codec, es: seq<Entry>)
    ensures ValidPaths(c, es) <==> (forall e :: e in es ==> SafePath(c, e.path)) && PathsDiffer(c, es)
  {
    forall p, q: Parts ensures ProperPrefix(p, q) <==> p < q {}
    if ValidPaths(c, es) {
      forall x, y | x in es && y in es ensures !(PartsOf(x.path) < PartsOf(y.path)) {
        var i :| 0 <= i < |es| && es[i] == x;
        var j :| 0 <= j < |es| && es[j] == y;
        assert !ProperPrefix(PartsOf(es[i].path), PartsOf(es[j].path));
      }
    }
    if (forall e :: e in es ==> SafePath(c, e.path)) && PathsDiffer(c, es) {
      forall i, j | 0 <= i < |es| && 0 <= j < |es| ensures !ProperPrefix(PartsOf(es[i].path), PartsOf(es[j].path)) {
        assert es[i] in es && es[j] in es;
      }
    }
  }

  lemma OrderExactly(es: seq<Entry>)
    ensures (forall n :: 0 <= n < |es| - 1 ==> Ordered(es[n], es[n + 1])) <==>
            forall i, j :: 0 <= i < j < |es| ==> Precedes(es[i], es[j])
  {
    if forall n :: 0 <= n < |es| - 1 ==> Ordered(es[n], es[n + 1]) {
      forall i, j | 0 <= i < j < |es| ensures Precedes(es[i], es[j]) { EntriesAreOrdered(es, i, j); }
    }
    if forall i, j :: 0 <= i < j < |es| ==> Precedes(es[i], es[j]) {
      forall n | 0 <= n < |es| - 1 ensures Ordered(es[n], es[n + 1]) { assert Precedes(es[n], es[n + 1]); }
    }
  }

  /** Some entries, within each bound. */
  predicate Bounded(m: Manifest) {
    && m.entries != [] && |m.entries| <= m.maxEntries && SizeOf(m.entries, |m.entries|) <= m.maxTotalBytes
    && forall e :: e in m.entries ==> e.size <= m.maxEntryBytes
  }

  /** In order, and at safe and different paths. */
  predicate Placeable(c: Codec, es: seq<Entry>) {
    && (forall e :: e in es ==> SafePath(c, e.path)) && PathsDiffer(c, es)
    && forall i, j :: 0 <= i < j < |es| ==> Precedes(es[i], es[j])
  }

  lemma BoundsExactly(m: Manifest)
    ensures Bounded(m) <==>
            && 0 < |m.entries| <= m.maxEntries && SizeOf(m.entries, |m.entries|) <= m.maxTotalBytes
            && forall i :: 0 <= i < |m.entries| ==> m.entries[i].size <= m.maxEntryBytes
  {}

  lemma PlaceableExactly(c: Codec, es: seq<Entry>)
    ensures Placeable(c, es) <==> ValidPaths(c, es) && forall n :: 0 <= n < |es| - 1 ==> Ordered(es[n], es[n + 1])
  {
    PathsExactly(c, es);
    OrderExactly(es);
  }

  /** Which manifests are valid: those of some entries, within each bound, in order, at safe and different paths,
      among them required ones for both contracts and one for everything that was loaded. */
  lemma ValidManifestsExactly(c: Codec, m: Manifest)
    ensures Valid(c, m) <==>
            && Bounded(m) && Placeable(c, m.entries) && ContractsAreThere(m) && LoadsAreListed(m)
  {
    BoundsExactly(m);
    PlaceableExactly(c, m.entries);
    ContractsExactly(m);
    LoadsExactly(m);
  }

  /* ---------- verification ---------- */

  /** Verification of any record against any tree accepts exactly when the record is of this manifest, its files are
      there with their digests and sizes, the metadata file is that of the record, and the tree digest is that of its
      entries. */
  lemma RecordsVerifyExactly(c: Codec, m: Manifest, r: Materialization, t: Tree)
    ensures Verify(c, m, r, t) <==>
            && r.fingerprint == c.fingerprint(m) && r.treeDigest == c.treeDigest(r.entries)
            && Metadata(c) in t.files && t.files[Metadata(c)] == c.metadata(m, r)
            && forall w :: w in r.entries ==>
                 && PlaceOf(c, w.path) in t.files && c.digest(t.files[PlaceOf(c, w.path)]) == w.digest
                 && |t.files[PlaceOf(c, w.path)]| == w.size
  {
    if Verify(c, m, r, t) {
      forall w | w in r.entries ensures FileMatches(c, t, w) {
        var i :| 0 <= i < |r.entries| && r.entries[i] == w;
      }
    }
  }
}
