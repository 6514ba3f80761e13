/** What a finished context pack guarantees, and what verification can and cannot see. */
module ContextResults {
  import opened ContextPack

  function WrittenFor(e: Entry): Written { Written(e.path, e.reference, e.digest, e.size) }

  /* ---------- written and omitted entries ---------- */

  lemma {:induction false} WrittenHas(c: Codec, a: Artifacts, es: seq<Entry>, n: nat, i: nat)
    requires Placed(c, a, es, n, i)
    ensures WrittenFor(es[i]) in WrittenOf(c, a, es, n)
  {
    if i < n - 1 { WrittenHas(c, a, es, n - 1, i); }
  }

  lemma {:induction false} WrittenFrom(c: Codec, a: Artifacts, es: seq<Entry>, n: nat, w: Written)
    requires n <= |es| && w in WrittenOf(c, a, es, n)
    ensures exists i: nat :: Placed(c, a, es, n, i) && w == WrittenFor(es[i])
  {
    if w in WrittenOf(c, a, es, n - 1) {
      WrittenFrom(c, a, es, n - 1, w);
      var i: nat :| Placed(c, a, es, n - 1, i) && w == WrittenFor(es[i]);
      assert Placed(c, a, es, n, i);
    } else {
      assert Placed(c, a, es, n, n - 1);
    }
  }

  lemma {:induction false} OmittedHas(c: Codec, a: Artifacts, es: seq<Entry>, n: nat, i: nat)
    requires i < n <= |es| && !Readable(c, a, es[i])
    ensures es[i].path in OmittedOf(c, a, es, n)
  {
    if i < n - 1 { OmittedHas(c, a, es, n - 1, i); }
  }

  lemma {:induction false} OmittedFrom(c: Codec, a: Artifacts, es: seq<Entry>, n: nat, path: string)
    requires n <= |es| && path in OmittedOf(c, a, es, n)
    ensures exists i :: 0 <= i < n && !Readable(c, a, es[i]) && es[i].path == path
  {
    if path in OmittedOf(c, a, es, n - 1) {
      OmittedFrom(c, a, es, n - 1, path);
      var i :| 0 <= i < n - 1 && !Readable(c, a, es[i]) && es[i].path == path;
      assert 0 <= i < n;
    }
  }

  lemma {:induction false} EveryEntryIsSettled(c: Codec, a: Artifacts, es: seq<Entry>, n: nat)
    requires n <= |es|
    ensures |WrittenOf(c, a, es, n)| + |OmittedOf(c, a, es, n)| == n
  {
    if n > 0 { EveryEntryIsSettled(c, a, es, n - 1); }
  }

  lemma {:induction false} TotalOfAppended(ws: seq<Written>, w: Written, n: nat)
    requires n <= |ws|
    ensures TotalBytes(ws + [w], n) == TotalBytes(ws, n)
  {
    if n > 0 { TotalOfAppended(ws, w, n - 1); }
  }

  lemma {:induction false} WrittenWithinSizes(c: Codec, a: Artifacts, es: seq<Entry>, n: nat)
    requires n <= |es|
    ensures TotalBytes(WrittenOf(c, a, es, n), |WrittenOf(c, a, es, n)|) <= SizeOf(es, n)
  {
    if n > 0 {
      WrittenWithinSizes(c, a, es, n - 1);
      var before := WrittenOf(c, a, es, n - 1);
      if Readable(c, a, es[n - 1]) {
        TotalOfAppended(before, WrittenFor(es[n - 1]), |before|);
      } else {
        assert WrittenOf(c, a, es, n) == before;
      }
    }
  }

  predicate Carries(ws: seq<Written>, identity: (Text, Text)) {
    exists k :: 0 <= k < |ws| && (ws[k].reference, ws[k].digest) == identity
  }

  /** Entry `i` is written or omitted, never both, and never omitted when required. */
  predicate Settled(c: Codec, a: Artifacts, m: Manifest, r: Materialization, i: nat)
    requires i < |m.entries|
  {
    var e := m.entries[i];
    if Readable(c, a, e) then WrittenFor(e) in r.entries && e.path !in r.omitted
    else !e.required && e.path in r.omitted && forall k :: 0 <= k < |r.entries| ==> r.entries[k].path != e.path
  }

  predicate DistinctPaths(es: seq<Entry>) { forall i, j :: 0 <= i < j < |es| ==> es[i].path != es[j].path }

  lemma ReadableIsWritten(c: Codec, a: Artifacts, es: seq<Entry>, i: nat)
    requires i < |es| && Readable(c, a, es[i])
    ensures WrittenFor(es[i]) in WrittenOf(c, a, es, |es|)
  {
    assert Placed(c, a, es, |es|, i);
    WrittenHas(c, a, es, |es|, i);
  }

  lemma ReadableIsNotOmitted(c: Codec, a: Artifacts, es: seq<Entry>, i: nat, path: string)
    requires DistinctPaths(es) && i < |es| && Readable(c, a, es[i]) && path in OmittedOf(c, a, es, |es|)
    ensures path != es[i].path
  {
    OmittedFrom(c, a, es, |es|, path);
    var j :| 0 <= j < |es| && !Readable(c, a, es[j]) && es[j].path == path;
    assert i != j;
  }

  lemma UnreadableIsNotWritten(c: Codec, a: Artifacts, es: seq<Entry>, i: nat, w: Written)
    requires DistinctPaths(es) && i < |es| && !Readable(c, a, es[i]) && w in WrittenOf(c, a, es, |es|)
    ensures w.path != es[i].path
  {
    WrittenFrom(c, a, es, |es|, w);
    var j: nat :| Placed(c, a, es, |es|, j) && w == WrittenFor(es[j]);
    assert i != j;
  }

  lemma EntryIsSettled(c: Codec, a: Artifacts, m: Manifest, r: Materialization, i: nat)
    requires DistinctPaths(m.entries) && RequiredReadable(c, a, m.entries, |m.entries|) && i < |m.entries|
    requires r.entries == WrittenOf(c, a, m.entries, |m.entries|)
             && r.omitted == OmittedOf(c, a, m.entries, |m.entries|)
    ensures Settled(c, a, m, r, i)
  {
    var es := m.entries;
    if Readable(c, a, es[i]) {
      ReadableIsWritten(c, a, es, i);
      forall path | path in r.omitted ensures path != es[i].path { ReadableIsNotOmitted(c, a, es, i, path); }
    } else {
      OmittedHas(c, a, es, |es|, i);
      forall k | 0 <= k < |r.entries| ensures r.entries[k].path != es[i].path {
        UnreadableIsNotWritten(c, a, es, i, r.entries[k]);
      }
    }
  }

  lemma ContractIsCarried(c: Codec, a: Artifacts, m: Manifest, identity: (Text, Text))
    requires RequiredReadable(c, a, m.entries, |m.entries|)
    requires exists i :: 0 <= i < |m.entries| && Names(m.entries[i], identity)
    ensures Carries(WrittenOf(c, a, m.entries, |m.entries|), identity)
  {
    var i :| 0 <= i < |m.entries| && Names(m.entries[i], identity);
    assert Placed(c, a, m.entries, |m.entries|, i);
    WrittenHas(c, a, m.entries, |m.entries|, i);
  }

  /** The pack's written and omitted entries partition the manifest, carry both contracts, and stay
      within the byte bound. */
  lemma PackIsComplete(c: Codec, a: Artifacts, m: Manifest)
    requires Valid(c, m) && Materialize(c, a, m).Ok?
    ensures var r := Materialize(c, a, m).value.1;
            && (forall i :: 0 <= i < |m.entries| ==> Settled(c, a, m, r, i))
            && |r.entries| + |r.omitted| == |m.entries|
            && Carries(r.entries, m.output) && Carries(r.entries, m.verification)
            && r.totalBytes <= m.maxTotalBytes
  {
    MaterializesExactly(c, a, m);
    ContractIsCarried(c, a, m, m.output);
    ContractIsCarried(c, a, m, m.verification);
    EveryEntryIsSettled(c, a, m.entries, |m.entries|);
    WrittenWithinSizes(c, a, m.entries, |m.entries|);
    ResultSums(c, a, m);
    forall i | 0 <= i < |m.entries| ensures Settled(c, a, m, Materialize(c, a, m).value.1, i) {
      EntryIsSettled(c, a, m, Materialize(c, a, m).value.1, i);
    }
  }

  lemma ResultSums(c: Codec, a: Artifacts, m: Manifest)
    requires Materialize(c, a, m).Ok?
    ensures var r := Materialize(c, a, m).value.1;
            && r.totalBytes == TotalBytes(r.entries, |r.entries|)
            && r.fingerprint == c.fingerprint(m) && r.treeDigest == c.treeDigest(r.entries)
  {}

  /* ---------- verification ---------- */

  ghost predicate CollisionFree(c: Codec) { forall x, y :: c.digest(x) == c.digest(y) ==> x == y }

  /** Every file of `t` is in `u`, unchanged. */
  predicate Contains(u: Tree, t: Tree) { forall q :: q in t.files ==> q in u.files && u.files[q] == t.files[q] }

  lemma ContainedPackMatches(c: Codec, a: Artifacts, m: Manifest, u: Tree, w: Written)
    requires Valid(c, m) && Materialize(c, a, m).Ok? && Contains(u, Materialize(c, a, m).value.0)
    requires w in Materialize(c, a, m).value.1.entries
    ensures FileMatches(c, u, w)
  {
    MaterializesExactly(c, a, m);
    WrittenFrom(c, a, m.entries, |m.entries|, w);
    PlacedMatches(c, a, m.entries, Materialize(c, a, m).value.0.files - {Metadata(c)}, u, w);
  }

  lemma PlacedMatches(c: Codec, a: Artifacts, es: seq<Entry>, files: map<Parts, Bytes>, u: Tree, w: Written)
    requires FilesAre(c, a, es, |es|, files) && exists i: nat :: Placed(c, a, es, |es|, i) && w == WrittenFor(es[i])
    requires forall q :: q in files ==> q in u.files && u.files[q] == files[q]
    ensures FileMatches(c, u, w)
  {
    var i: nat :| Placed(c, a, es, |es|, i) && w == WrittenFor(es[i]);
    assert PlaceOf(c, w.path) in files;
  }

  /** The content of a placed file is the only one that matches its record. */
  lemma MatchingContentIsThePack(c: Codec, a: Artifacts, es: seq<Entry>, i: nat, files: map<Parts, Bytes>, u: Tree)
    requires CollisionFree(c) && Placed(c, a, es, |es|, i) && FilesAre(c, a, es, |es|, files)
    requires FileMatches(c, u, WrittenFor(es[i]))
    ensures PlaceOf(c, es[i].path) in files && PlaceOf(c, es[i].path) in u.files
    ensures u.files[PlaceOf(c, es[i].path)] == files[PlaceOf(c, es[i].path)]
  {
    var q := PlaceOf(c, es[i].path);
    assert c.digest(u.files[q]) == c.digest(files[q]);
  }

  lemma VerifiedFileIsUnchanged(
    c: Codec, a: Artifacts, es: seq<Entry>, files: map<Parts, Bytes>, ws: seq<Written>, u: Tree, q: Parts)
    requires CollisionFree(c) && FilesAre(c, a, es, |es|, files) && ws == WrittenOf(c, a, es, |es|)
    requires (forall k :: 0 <= k < |ws| ==> FileMatches(c, u, ws[k])) && q in files
    ensures q in u.files && u.files[q] == files[q]
  {
    var i: nat :| Placed(c, a, es, |es|, i) && PlaceOf(c, es[i].path) == q;
    ReadableIsWritten(c, a, es, i);
    MatchingContentIsThePack(c, a, es, i, files, u);
  }

  lemma ContainingTreeVerifies(c: Codec, a: Artifacts, m: Manifest, u: Tree)
    requires Valid(c, m) && Materialize(c, a, m).Ok? && Contains(u, Materialize(c, a, m).value.0)
    ensures Verify(c, m, Materialize(c, a, m).value.1, u)
  {
    var r := Materialize(c, a, m).value.1;
    ResultSums(c, a, m);
    MaterializesExactly(c, a, m);
    forall i | 0 <= i < |r.entries| ensures FileMatches(c, u, r.entries[i]) {
      ContainedPackMatches(c, a, m, u, r.entries[i]);
    }
  }

  lemma VerifiedTreeContains(c: Codec, a: Artifacts, m: Manifest, t: Tree, r: Materialization, u: Tree)
    requires CollisionFree(c) && HoldsPack(c, a, m, t, r) && r.entries == WrittenOf(c, a, m.entries, |m.entries|)
    requires Verify(c, m, r, u)
    ensures Contains(u, t)
  {
    var files := t.files - {Metadata(c)};
    forall q | q in files ensures q in u.files && u.files[q] == files[q] {
      VerifiedFileIsUnchanged(c, a, m.entries, files, r.entries, u, q);
    }
    forall q | q in t.files ensures q in u.files && u.files[q] == t.files[q] {
      if q != Metadata(c) { assert q in files; }
    }
  }

  /** With a collision-free digest, verification accepts exactly the trees that still hold every file
      of the pack unchanged; extra files go unnoticed. */
  lemma VerifiesExactly(c: Codec, a: Artifacts, m: Manifest, u: Tree)
    requires Valid(c, m) && Materialize(c, a, m).Ok? && CollisionFree(c)
    ensures Verify(c, m, Materialize(c, a, m).value.1, u) <==> Contains(u, Materialize(c, a, m).value.0)
  {
    MaterializesExactly(c, a, m);
    var (t, r) := Materialize(c, a, m).value;
    if Contains(u, t) { ContainingTreeVerifies(c, a, m, u); }
    if Verify(c, m, r, u) { VerifiedTreeContains(c, a, m, t, r, u); }
  }

  /** A fresh pack verifies, whatever the digest. */
  lemma FreshPackVerifies(c: Codec, a: Artifacts, m: Manifest)
    requires Valid(c, m) && Materialize(c, a, m).Ok?
    ensures Verify(c, m, Materialize(c, a, m).value.1, Materialize(c, a, m).value.0)
  {
    ContainingTreeVerifies(c, a, m, Materialize(c, a, m).value.0);
  }

  /* ---------- loaded skills ---------- */

  predicate CarriesDigest(ws: seq<Written>, d: Text) { exists k :: 0 <= k < |ws| && ws[k].digest == d }

  predicate Fewer(b: Artifacts, a: Artifacts) { forall k :: k in b ==> k in a && b[k] == a[k] }

  /** However many artifacts are lost, a pack that still materialises carries digest `d`. */
  ghost predicate AlwaysCarried(c: Codec, a: Artifacts, m: Manifest, d: Text) {
    forall b :: Fewer(b, a) && Materialize(c, b, m).Ok? ==> CarriesDigest(Materialize(c, b, m).value.1.entries, d)
  }

  predicate RequiresDigest(m: Manifest, d: Text) {
    exists i :: 0 <= i < |m.entries| && m.entries[i].required && m.entries[i].digest == d
  }

  function Without(a: Artifacts, d: Text): Artifacts { map k | k in a && a[k].digest != d :: a[k] }

  lemma RequiredStaysReadable(c: Codec, a: Artifacts, m: Manifest, d: Text)
    requires RequiredReadable(c, a, m.entries, |m.entries|) && !RequiresDigest(m, d)
    ensures RequiredReadable(c, Without(a, d), m.entries, |m.entries|)
  {
    forall i | 0 <= i < |m.entries| && m.entries[i].required ensures Readable(c, Without(a, d), m.entries[i]) {
      assert Readable(c, a, m.entries[i]);
    }
  }

  lemma FewerStaysClear(c: Codec, a: Artifacts, b: Artifacts, es: seq<Entry>)
    requires Fewer(b, a) && Clear(c, a, es)
    ensures Clear(c, b, es)
  {
    forall i: nat | Placed(c, b, es, |es|, i) ensures Placed(c, a, es, |es|, i) {}
  }

  lemma LostDigestIsNotWritten(c: Codec, a: Artifacts, es: seq<Entry>, d: Text, w: Written)
    requires w in WrittenOf(c, Without(a, d), es, |es|)
    ensures w.digest != d
  {
    WrittenFrom(c, Without(a, d), es, |es|, w);
  }

  lemma LostDigestIsMissing(c: Codec, a: Artifacts, m: Manifest, d: Text)
    requires Valid(c, m) && Materialize(c, a, m).Ok? && !RequiresDigest(m, d)
    ensures Materialize(c, Without(a, d), m).Ok?
    ensures !CarriesDigest(Materialize(c, Without(a, d), m).value.1.entries, d)
  {
    MaterializesExactly(c, a, m);
    MaterializesExactly(c, Without(a, d), m);
    RequiredStaysReadable(c, a, m, d);
    FewerStaysClear(c, a, Without(a, d), m.entries);
    var ws := Materialize(c, Without(a, d), m).value.1.entries;
    forall k | 0 <= k < |ws| ensures ws[k].digest != d { LostDigestIsNotWritten(c, a, m.entries, d, ws[k]); }
  }

  /** The content of a loaded skill is sure to be in the pack exactly when some required entry has its
      digest; the validator only asks for an entry, which may be optional and then be omitted. */
  lemma SkillContentIsSureExactly(c: Codec, a: Artifacts, m: Manifest, d: Text)
    requires Valid(c, m) && Materialize(c, a, m).Ok?
    ensures AlwaysCarried(c, a, m, d) <==> RequiresDigest(m, d)
  {
    if RequiresDigest(m, d) {
      var i :| 0 <= i < |m.entries| && m.entries[i].required && m.entries[i].digest == d;
      forall b | Fewer(b, a) && Materialize(c, b, m).Ok?
        ensures CarriesDigest(Materialize(c, b, m).value.1.entries, d)
      {
        MaterializesExactly(c, b, m);
        ReadableIsWritten(c, b, m.entries, i);
      }
    } else {
      LostDigestIsMissing(c, a, m, d);
      assert Fewer(Without(a, d), a);
    }
  }
}
