/** What each call of the artifact service leaves and answers, field by field. */
module ArtifactOutcomes {
  import opened Outcomes
  import opened ArtifactRoots
  import opened ArtifactStore
  import opened ArtifactCalls
  import opened ArtifactRetention

  /* ---------- uploads ---------- */

  /** An upload is opened exactly for an unused identity, a well-formed digest, a size within the limit, and
      sources that are all available; it keeps those sources. */
  lemma OpenExactly(p: Params, s: Store, u: Id, digest: string, size: int, sources: seq<Id>, now: int)
    ensures var r := OpenUpload(p, s, u, digest, size, sources, now);
            var fits := && ValidDigest(p, digest) && 0 <= size <= p.maxArtifactBytes
                        && (forall x :: x in sources ==> x in s.artifacts && s.artifacts[x].lifecycle == Available);
            && (r.Ok? <==> fits && u !in s.uploads && u !in s.staging)
            && (r.Refused? ==> r.code == if fits then Conflict else ArtifactError)
            && (r.Ok? ==>
                  && u in r.value.uploads && u in r.value.staging
                  && r.value == s.(uploads := s.uploads[u := r.value.uploads[u]], staging := s.staging[u := []])
                  && var row := r.value.uploads[u];
                     && row.digest == digest && row.size == size && row.sources == sources && row.offset == 0
                     && row.state == UploadStaging && row.artifactId == None && row.updatedAt == now)
  {}

  /** A chunk is refused for its size first, then for an unknown, settled or differently positioned upload, then for
      not fitting, then for a staged file that is not at the cursor. */
  lemma AppendRefusedExactly(p: Params, s: Store, u: Id, offset: int, content: Bytes)
    ensures var r := AppendCheck(p, s, u, offset, content);
            && (r.Ok? <==>
                  && 0 < |content| <= p.maxChunkBytes
                  && u in s.uploads && s.uploads[u].state == UploadStaging && s.uploads[u].offset == offset
                  && offset + |content| <= s.uploads[u].size
                  && u in s.staging && |s.staging[u]| == offset)
            && (r.Refused? ==> (r.code == RevisionMismatch <==>
                  && 0 < |content| <= p.maxChunkBytes && u in s.uploads
                  && (s.uploads[u].state != UploadStaging || s.uploads[u].offset != offset)))
            && (r.Refused? ==> r.code in {RevisionMismatch, ArtifactError})
  {}

  /** An accepted chunk extends the staged file by itself and moves the cursor behind it; a refused one does nothing. */
  lemma AppendExactly(p: Params, s: Store, u: Id, offset: int, content: Bytes, now: int)
    ensures var s' := AppendChunk(p, s, u, offset, content, |content|, true, now);
            && (AppendCheck(p, s, u, offset, content).Refused? ==> s' == s)
            && (AppendCheck(p, s, u, offset, content).Ok? ==>
                  && u in s.uploads && u in s.staging && u in s'.uploads && u in s'.staging
                  && s' == s.(uploads := s.uploads[u := s'.uploads[u]], staging := s.staging[u := s'.staging[u]])
                  && s'.staging[u] == s.staging[u] + content
                  && s'.uploads[u] == s.uploads[u].(offset := offset + |content|, updatedAt := now))
  {
    assert content[..|content|] == content;
  }

  /** Only a committed or unknown upload cannot be aborted. */
  lemma AbortExactly(s: Store, u: Id, now: int)
    ensures var r := AbortUpload(s, u, now);
            && (r.Ok? <==> u in s.uploads && s.uploads[u].state != UploadCommitted)
            && (r.Refused? ==> r.code == ArtifactError)
            && (r.Ok? ==>
                  && u !in r.value.staging && u in r.value.uploads
                  && r.value.uploads[u] == s.uploads[u].(state := UploadAborted, updatedAt := now)
                  && r.value == s.(uploads := s.uploads[u := r.value.uploads[u]], staging := s.staging - {u}))
  {}

  /* ---------- committing ---------- */

  /** The upload was committed before, and its artifact's row exists. */
  predicate AlreadyCommitted(s: Store, u: Id) {
    && u in s.uploads && s.uploads[u].state == UploadCommitted
    && s.uploads[u].artifactId.Some? && s.uploads[u].artifactId.value in s.artifacts
  }

  /** The inspector rejects what is staged for the open upload. */
  predicate HoldsSecret(p: Params, s: Store, u: Id) {
    u in s.uploads && s.uploads[u].state == UploadStaging && u in s.staging && p.secret(s.staging[u])
  }

  /** A body of the declared digest and size is staged, and none that differs is in its place; or nothing is staged
      any more, and it is in its place already. */
  predicate Publishable(p: Params, s: Store, u: Id) {
    && u in s.uploads && s.uploads[u].state == UploadStaging
    && var row := s.uploads[u];
       var ref := StorageRef(row.digest);
       && ValidRef(ref)
       && (u in s.staging ==> p.digest(s.staging[u]) == row.digest && |s.staging[u]| == row.size)
       && (ref in s.bodies ==> p.digest(s.bodies[ref]) == row.digest && |s.bodies[ref]| == row.size)
       && (u in s.staging || ref in s.bodies)
  }

  /** The row of a new artifact, and the upload that it was made of. */
  predicate Inserted(s: Store, s': Store, u: Id, a: Id, now: int)
    requires u in s.uploads
  {
    && a in s'.artifacts && s'.artifacts == s.artifacts[a := s'.artifacts[a]]
    && u in s'.uploads && s'.uploads == s.uploads[u := s'.uploads[u]]
    && var row, upload := s'.artifacts[a], s.uploads[u];
       && row.digest == upload.digest && row.size == upload.size && row.ref == StorageRef(upload.digest)
       && row.sources == upload.sources && row.lifecycle == Available && row.facts.available
       && row.facts.integrity == Passed && row.facts.trust == Untrusted && row.createdAt == now && row.origin == u
       && s'.uploads[u] == upload.(state := UploadCommitted, artifactId := Some(a), updatedAt := now)
  }

  /** A commit succeeds exactly for an upload committed before or one that can be published and holds no secret. */
  lemma CommitSucceedsExactly(p: Params, s: Store, u: Id, a: Id, now: int)
    ensures var r := Commit(p, s, u, a, now).1;
            && (r.Ok? <==> AlreadyCommitted(s, u) || (Publishable(p, s, u) && !HoldsSecret(p, s, u)))
            && (r.Refused? ==> r.code == if HoldsSecret(p, s, u) then SecretContent else ArtifactError)
            && (r.Ok? ==> r.value == if AlreadyCommitted(s, u) then s.uploads[u].artifactId.value else a)
  {}

  /** What it leaves: nothing new for an upload committed before or refused, an aborted upload without its staged
      file for a secret, and else the artifact, its body, and no staged file. */
  lemma CommitLeavesExactly(p: Params, s: Store, u: Id, a: Id, now: int)
    ensures var (s', r) := Commit(p, s, u, a, now);
            && (AlreadyCommitted(s, u) || (r.Refused? && !HoldsSecret(p, s, u)) ==> s' == s)
            && (HoldsSecret(p, s, u) ==> RejectedUpload(s, s', u, now))
            && (r.Ok? && !AlreadyCommitted(s, u) ==> CommittedNow(s, s', u, a, now))
  {
    var (s', r) := Commit(p, s, u, a, now);
    if r.Ok? && !AlreadyCommitted(s, u) { CommitsNow(p, s, u, a, now); }
  }

  predicate RejectedUpload(s: Store, s': Store, u: Id, now: int) {
    && u in s.uploads && u in s'.uploads && s'.staging == s.staging - {u}
    && s'.uploads[u] == s.uploads[u].(state := UploadAborted, updatedAt := now)
    && s' == s.(staging := s'.staging, uploads := s.uploads[u := s'.uploads[u]])
  }

  predicate CommittedNow(s: Store, s': Store, u: Id, a: Id, now: int) {
    && u in s.uploads && Inserted(s, s', u, a, now) && s'.staging == s.staging - {u}
    && var ref := StorageRef(s.uploads[u].digest);
       && ref in s'.bodies && (ref !in s.bodies ==> u in s.staging && s'.bodies[ref] == s.staging[u])
       && s'.bodies == (if ref in s.bodies then s.bodies else s.bodies[ref := s'.bodies[ref]])
       && s' == s.(artifacts := s'.artifacts, uploads := s'.uploads, staging := s'.staging, bodies := s'.bodies)
  }

  lemma CommitsNow(p: Params, s: Store, u: Id, a: Id, now: int)
    requires Commit(p, s, u, a, now).1.Ok? && !AlreadyCommitted(s, u)
    ensures CommittedNow(s, Commit(p, s, u, a, now).0, u, a, now)
  {
    if u in s.staging {
      CommitsStaged(p, s, u, a, now);
    } else {
      assert Commit(p, s, u, a, now).0 == InsertArtifact(s, u, a, now);
      assert s.staging - {u} == s.staging;
      InsertsNow(s, s, u, a, now);
    }
  }

  lemma CommitsStaged(p: Params, s: Store, u: Id, a: Id, now: int)
    requires Commit(p, s, u, a, now).1.Ok? && !AlreadyCommitted(s, u) && u in s.staging
    ensures CommittedNow(s, Commit(p, s, u, a, now).0, u, a, now)
  {
    var row := s.uploads[u];
    var linked := Link(p, s, s.staging[u], StorageRef(row.digest), row.digest, row.size).value;
    var unstaged := linked.(staging := s.staging - {u});
    assert Commit(p, s, u, a, now).0 == InsertArtifact(unstaged, u, a, now);
    InsertsNow(s, unstaged, u, a, now);
  }

  /** The row transaction, after the body was put in its place and the staged file removed. */
  lemma InsertsNow(s: Store, x: Store, u: Id, a: Id, now: int)
    requires u in s.uploads && x == s.(staging := s.staging - {u}, bodies := x.bodies)
    requires StorageRef(s.uploads[u].digest) in x.bodies
    requires x.bodies == s.bodies ||
             (StorageRef(s.uploads[u].digest) !in s.bodies && u in s.staging
              && x.bodies == s.bodies[StorageRef(s.uploads[u].digest) := s.staging[u]])
    ensures CommittedNow(s, InsertArtifact(x, u, a, now), u, a, now)
  {}

  /** Stored content becomes an available artifact of its own digest, size and given sources. */
  lemma PutLeavesExactly(p: Params, s: Store, content: Bytes, sources: seq<Id>, u: Id, a: Id, now: int)
    requires u !in s.uploads && u !in s.staging
    ensures var (s', r) := Put(p, s, content, sources, u, a, now);
            r.Ok? ==>
              && r.value == a && a in s'.artifacts && s'.artifacts == s.artifacts[a := s'.artifacts[a]]
              && s'.artifacts[a].digest == p.digest(content) && s'.artifacts[a].size == |content|
              && s'.artifacts[a].sources == sources && s'.artifacts[a].lifecycle == Available
              && s'.artifacts[a].createdAt == now && s'.artifacts[a].origin == u
              && s'.staging == s.staging && s'.references == s.references && s'.holds == s.holds
              && s'.pins == s.pins && s'.collections == s.collections && s'.evidence == s.evidence
              && s'.gcPlans == s.gcPlans
  {
    assert content[..|content|] == content;
    var begun := OpenUpload(p, s, u, p.digest(content), |content|, sources, now);
    if begun.Ok? {
      var filed := Filed(begun.value, u, content, |content|, now);
      assert filed.uploads[u].sources == sources && filed.uploads[u].digest == p.digest(content);
      CommitLeavesExactly(p, filed, u, a, now);
      CommitSucceedsExactly(p, filed, u, a, now);
      assert filed.staging - {u} == s.staging;
    }
  }

  /** Once stored, whatever spares the artifact spares every one of its sources: no plan lists them. */
  lemma StoredSourcesAreSpared(
    p: Params, s: Store, content: Bytes, sources: seq<Id>, u: Id, a: Id, now: int, x: Id, watermark: int)
    requires u !in s.uploads && u !in s.staging && Put(p, s, content, sources, u, a, now).1.Ok? && x in sources
    ensures var s' := Put(p, s, content, sources, u, a, now).0;
            Spared(s', a) ==> Spared(s', x) && !Collectable(s', watermark, x)
  {
    PutLeavesExactly(p, s, content, sources, u, a, now);
    var s' := Put(p, s, content, sources, u, a, now).0;
    if Spared(s', a) {
      SourcesAreSpared(s', a, x);
      PlansSpareExactly(s', watermark, x);
    }
  }

  /* ---------- reading ---------- */

  /** A read answers with the body exactly when the artifact is available and its body has its digest and size;
      a missing or different body is recorded as such, and nothing else is changed. */
  lemma ReadExactly(p: Params, s: Store, a: Id)
    ensures var (s', r) := Read(p, s, a);
            var found := a in s.artifacts && s.artifacts[a].lifecycle == Available;
            var there := found && s.artifacts[a].ref in s.bodies;
            var intact := there && p.digest(s.bodies[s.artifacts[a].ref]) == s.artifacts[a].digest
                          && |s.bodies[s.artifacts[a].ref]| == s.artifacts[a].size;
            && (r == if intact then Ok(s.bodies[s.artifacts[a].ref]) else Refused(ArtifactError))
            && (!found || intact ==> s' == s)
            && (found && !intact ==>
                  && a in s'.artifacts && s' == s.(artifacts := s.artifacts[a := s'.artifacts[a]])
                  && s'.artifacts[a].lifecycle == (if there then Corrupt else Missing)
                  && !s'.artifacts[a].facts.available && s'.artifacts[a].facts.integrity == Failed
                  && SameIdentity(s.artifacts[a], s'.artifacts[a]))
  {
    if a in s.artifacts && s.artifacts[a].lifecycle == Available {
      OnlyOneRow(s.artifacts, a, Missing);
      OnlyOneRow(s.artifacts, a, Corrupt);
    }
  }

  lemma OnlyOneRow(rows: map<Id, ArtifactRow>, a: Id, l: Lifecycle)
    requires a in rows
    ensures SetRows(rows, {a}, l) == rows[a := SetLifecycle(rows[a], l)]
  {}

  /* ---------- references ---------- */

  /** A reference moves exactly onto an available artifact and from the revision that the caller saw; it then
      remembers its last target with that revision, and other references stay. */
  lemma ReferenceMovesExactly(s: Store, key: ReferenceKey, a: Id, expected: int)
    ensures var r := UpdateReference(s, key, a, expected);
            var usable := a in s.artifacts && s.artifacts[a].lifecycle == Available;
            && (r.Ok? <==> usable && expected == if key in s.references then s.references[key].revision else 0)
            && (r.Refused? ==> r.code == if usable then RevisionMismatch else ArtifactError)
            && (r.Ok? ==>
                  && key in r.value.references
                  && r.value == s.(references := s.references[key := r.value.references[key]])
                  && var row := r.value.references[key];
                     && row.artifactId == a && row.revision == expected + 1
                     && row.prior
                        == if key in s.references then Some((s.references[key].artifactId, expected)) else None)
  {}
}
