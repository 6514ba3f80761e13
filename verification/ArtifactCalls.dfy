/** Whole service calls with nothing else running: committing, storing and reading content,
    and collecting garbage, as functions of the store. */
module ArtifactCalls {
  import opened Outcomes
  import opened ArtifactRoots
  import opened ArtifactStore

  /* ---------- committing ---------- */

  /** `commit_upload` for one caller; `a` is the identity that a new row would get. */
  function Commit(p: Params, s: Store, u: Id, a: Id, now: int): (Store, Result<Id>) {
    if u !in s.uploads then (s, Refused(ArtifactError))
    else
      var row := s.uploads[u];
      var ref := StorageRef(row.digest);
      if row.state == UploadCommitted && row.artifactId.Some? && row.artifactId.value in s.artifacts then
        (s, Ok(row.artifactId.value))
      else if row.state != UploadStaging then (s, Refused(ArtifactError))
      else if u !in s.staging then
        if Backed(p, s, ref, row.digest, row.size) then (InsertArtifact(s, u, a, now), Ok(a))
        else (s, Refused(ArtifactError))
      else if p.secret(s.staging[u]) then (RejectSecret(s, u, now), Refused(SecretContent))
      else if !ValidRef(ref) || !Matches(p, s.staging[u], row.digest, row.size) then (s, Refused(ArtifactError))
      else
        var linked := Link(p, s, s.staging[u], ref, row.digest, row.size);
        if linked.Refused? then (s, Refused(ArtifactError))
        else
          var unstaged := linked.value.(staging := s.staging - {u});
          (InsertArtifact(unstaged, u, a, now), Ok(a))
  }

  /** Committing again returns the same artifact and changes nothing. */
  lemma CommitIsIdempotent(p: Params, s: Store, u: Id, a: Id, b: Id, now: int, later: int)
    requires Commit(p, s, u, a, now).1.Ok?
    ensures Commit(p, Commit(p, s, u, a, now).0, u, b, later) == Commit(p, s, u, a, now)
  {}

  /** A commit that stopped after unlinking its staged file is completed by the next one as long
      as the body is still there, and is refused once it is not. */
  lemma InterruptedCommitRecovers(p: Params, s: Store, u: Id, a: Id, now: int)
    requires u in s.uploads && s.uploads[u].state == UploadStaging && u in s.staging
    requires Commit(p, s, u, a, now).1.Ok?
    ensures var row := s.uploads[u];
            var crashed := Link(p, s, s.staging[u], StorageRef(row.digest), row.digest,
              row.size).value.(staging := s.staging - {u});
            && Commit(p, crashed, u, a, now) == Commit(p, s, u, a, now)
            && Commit(p, DeleteBody(crashed, StorageRef(row.digest)), u, a, now).1 == Refused(ArtifactError)
  {}

  /* ---------- reading ---------- */

  /** `read_bytes`: an absent or damaged body is recorded on the row before the refusal. */
  function Read(p: Params, s: Store, a: Id): (Store, Result<Bytes>) {
    if a !in s.artifacts || s.artifacts[a].lifecycle != Available then (s, Refused(ArtifactError))
    else
      var row := s.artifacts[a];
      if row.ref !in s.bodies then (SetAll(s, {a}, Missing), Refused(ArtifactError))
      else if !Matches(p, s.bodies[row.ref], row.digest, row.size)
        then (SetAll(s, {a}, Corrupt), Refused(ArtifactError))
      else (s, Ok(s.bodies[row.ref]))
  }

  /* ---------- storing ---------- */

  /** The digest function has the shape of SHA-256 in lower-case hexadecimal. */
  ghost predicate Sha256Shape(p: Params) {
    forall c :: ValidDigest(p, p.digest(c)) && ValidRef(StorageRef(p.digest(c)))
  }

  /** The upload with its first `n` bytes staged and the cursor behind them. */
  function Filed(s: Store, u: Id, content: Bytes, n: nat, now: int): Store
    requires u in s.uploads && n <= |content|
  {
    s.(uploads := s.uploads[u := s.uploads[u].(offset := n, updatedAt := now)],
       staging := s.staging[u := content[..n]])
  }

  /** A chunk that starts at the cursor and fits is never refused, and moves the cursor past it. */
  lemma ChunkIsAccepted(p: Params, s: Store, u: Id, content: Bytes, n: nat, m: nat, now: int)
    requires u in s.uploads && s.uploads[u].state == UploadStaging && s.uploads[u].size == |content|
    requires n < m <= |content| && m - n <= p.maxChunkBytes
    ensures var chunk := content[n..m];
            && AppendCheck(p, Filed(s, u, content, n, now), u, n, chunk).Ok?
            && AppendChunk(p, Filed(s, u, content, n, now), u, n, chunk, |chunk|, true, now)
               == Filed(s, u, content, m, now)
  {
    var before, chunk := Filed(s, u, content, n, now), content[n..m];
    assert chunk[..|chunk|] == chunk;
    assert content[..n] + chunk == content[..m];
    var after := AppendChunk(p, before, u, n, chunk, |chunk|, true, now);
    assert after.uploads == Filed(s, u, content, m, now).uploads;
    assert after.staging == Filed(s, u, content, m, now).staging;
  }

  /** `put_bytes` of complete content. */
  function Put(p: Params, s: Store, content: Bytes, sources: seq<Id>, u: Id, a: Id, now: int): (Store, Result<Id>) {
    var begun := OpenUpload(p, s, u, p.digest(content), |content|, sources, now);
    if begun.Refused? then (s, Refused(begun.code))
    else Commit(p, Filed(begun.value, u, content, |content|, now), u, a, now)
  }

  /** When storing content succeeds, for a fresh upload identity. */
  predicate Storable(p: Params, s: Store, content: Bytes, sources: seq<Id>) {
    var digest := p.digest(content);
    && |content| <= p.maxArtifactBytes
    && SourcesAvailable(s, sources)
    && !p.secret(content)
    && (StorageRef(digest) in s.bodies ==> Matches(p, s.bodies[StorageRef(digest)], digest, |content|))
  }

  /** Content within the bound is stored exactly when its sources are available, the inspector
      finds no secret, and no damaged or colliding body occupies its reference. */
  lemma PutSucceedsExactlyWhenStorable(p: Params, s: Store, content: Bytes, sources: seq<Id>, u: Id, a: Id, now: int)
    requires Sha256Shape(p) && u !in s.uploads && u !in s.staging
    ensures Put(p, s, content, sources, u, a, now).1.Ok? <==> Storable(p, s, content, sources)
    ensures Storable(p, s, content, sources) ==> Put(p, s, content, sources, u, a, now).1 == Ok(a)
  {
    assert content[..|content|] == content;
    if OpenUpload(p, s, u, p.digest(content), |content|, sources, now).Ok? {
      var filed := Filed(OpenUpload(p, s, u, p.digest(content), |content|, sources, now).value, u, content, |content|,
        now);
      assert filed.staging[u] == content && filed.bodies == s.bodies;
    }
  }

  /** Stored content reads back as itself exactly when no other content of the same digest and
      size was there first; a collision-free digest leaves no such case. */
  lemma StoredContentReadsBack(p: Params, s: Store, content: Bytes, sources: seq<Id>, u: Id, a: Id, now: int)
    requires Sha256Shape(p) && u !in s.uploads && u !in s.staging
    requires Storable(p, s, content, sources)
    ensures var s' := Put(p, s, content, sources, u, a, now).0;
            var ref := StorageRef(p.digest(content));
            && Read(p, s', a).0 == s'
            && Read(p, s', a).1.Ok?
            && (Read(p, s', a).1 == Ok(content) <==> (ref in s.bodies ==> s.bodies[ref] == content))
            && ((forall other :: p.digest(other) == p.digest(content) ==> other == content) ==>
               Read(p, s', a).1 == Ok(content))
  {
    PutSucceedsExactlyWhenStorable(p, s, content, sources, u, a, now);
    assert content[..|content|] == content;
    var filed := Filed(OpenUpload(p, s, u, p.digest(content), |content|, sources, now).value, u, content, |content|,
      now);
    assert filed.staging[u] == content && filed.bodies == s.bodies;
    assert filed.uploads[u].digest == p.digest(content);
    var s', ref := Put(p, s, content, sources, u, a, now).0, StorageRef(p.digest(content));
    assert s'.bodies == if ref in s.bodies then s.bodies else s.bodies[ref := content];
    assert s'.artifacts[a].ref == ref && s'.artifacts[a].digest == p.digest(content);
  }

  /* ---------- collecting ---------- */

  /** The references whose last live row a collection removed. */
  predicate Freed(s: Store, ids: set<Id>, ref: string) {
    (exists a :: a in ids && a in s.artifacts && s.artifacts[a].ref == ref)
    && forall a :: a in s.artifacts && s.artifacts[a].ref == ref && a !in ids ==> !Live(s.artifacts[a])
  }

  /** The second half of `apply_gc` for the references in `refs`: delete each unclaimed body and
      mark the tombstoned rows at its reference. */
  function Swept(s: Store, refs: set<string>): Store {
    s.(bodies := map r | r in s.bodies && !(r in refs && NoLive(s, r)) :: s.bodies[r],
       artifacts := map a | a in s.artifacts ::
         var row := s.artifacts[a];
         if row.ref in refs && NoLive(s, row.ref) && row.lifecycle == Tombstoned then SetLifecycle(row, Deleted)
           else row)
  }

  function RefsOf(s: Store, ids: set<Id>): set<string> {
    set a | a in ids && a in s.artifacts :: s.artifacts[a].ref
  }

  /** `apply_gc` of a plan not yet applied. */
  ghost function ApplyGc(s: Store, plan: Id): (Store, Result<()>)
    requires plan in s.gcPlans && !s.gcPlans[plan].applied
  {
    var tombstoned := Tombstone(s, plan);
    if tombstoned.Refused? then (s, Refused(tombstoned.code))
    else (Swept(tombstoned.value, RefsOf(s, AvailableAmong(s, s.gcPlans[plan].candidates))), Ok(()))
  }

  lemma LiveAfterTombstone(s: Store, ids: set<Id>, ref: string)
    ensures NoLive(SetAll(s, ids, Tombstoned), ref) <==>
            forall a :: a in s.artifacts && s.artifacts[a].ref == ref && a !in ids ==> !Live(s.artifacts[a])
  {
    var s' := SetAll(s, ids, Tombstoned);
    assert s'.artifacts.Keys == s.artifacts.Keys;
    if a :| a in s.artifacts && s.artifacts[a].ref == ref && a !in ids && Live(s.artifacts[a]) {
      assert s'.artifacts[a] == s.artifacts[a];
    }
  }

  /** A collection deletes a shared body exactly when it takes the last live row of it. */
  lemma SharedBodySurvives(s: Store, plan: Id, ref: string)
    requires plan in s.gcPlans && !s.gcPlans[plan].applied && Tombstone(s, plan).Ok?
    requires ref in s.bodies
    ensures ref !in ApplyGc(s, plan).0.bodies <==> Freed(s, AvailableAmong(s, s.gcPlans[plan].candidates), ref)
  {
    var ids := AvailableAmong(s, s.gcPlans[plan].candidates);
    LiveAfterTombstone(s, ids, ref);
    assert NoLive(Tombstone(s, plan).value, ref) <==> NoLive(SetAll(s, ids, Tombstoned), ref);
    assert ref in RefsOf(s, ids) <==> exists a :: a in ids && a in s.artifacts && s.artifacts[a].ref == ref;
  }

  lemma SweptNothing(s: Store)
    ensures Swept(s, {}) == s
  {
    assert Swept(s, {}).bodies == s.bodies;
    assert Swept(s, {}).artifacts == s.artifacts;
  }

  lemma SweepNone(s: Store, ref: string)
    requires !NoLive(s, ref)
    ensures Swept(s, {ref}) == s
  {
    assert Swept(s, {ref}).bodies == s.bodies;
    assert Swept(s, {ref}).artifacts == s.artifacts;
  }

  lemma SweepOne(s: Store, ref: string)
    requires NoLive(s, ref)
    ensures Swept(s, {ref}) == SetAll(DeleteBody(s, ref), TombstonedAt(s, ref), Deleted)
  {
    assert Swept(s, {ref}).bodies == s.bodies - {ref};
    assert Swept(s, {ref}).artifacts == SetRows(s.artifacts, TombstonedAt(s, ref), Deleted);
  }

  lemma SweptLive(s: Store, refs: set<string>, ref: string)
    ensures NoLive(Swept(s, refs), ref) <==> NoLive(s, ref)
  {
    var s' := Swept(s, refs);
    forall a | a in s.artifacts
      ensures s'.artifacts[a].ref == s.artifacts[a].ref && (Live(s'.artifacts[a]) <==> Live(s.artifacts[a]))
    {}
  }

  /** Sweeping reference after reference is sweeping all of them. */
  lemma SweptUnion(s: Store, done: set<string>, ref: string)
    ensures Swept(Swept(s, done), {ref}) == Swept(s, done + {ref})
  {
    forall r ensures NoLive(Swept(s, done), r) <==> NoLive(s, r) { SweptLive(s, done, r); }
    assert Swept(Swept(s, done), {ref}).bodies == Swept(s, done + {ref}).bodies;
    assert Swept(Swept(s, done), {ref}).artifacts == Swept(s, done + {ref}).artifacts;
  }
}
