/** What every interleaving keeps: rows that claim a body have it, an upload yields at most one
    artifact, and nothing a root leads to is collected. */
module CasSafety {
  import opened Outcomes
  import opened ArtifactRoots
  import opened ArtifactStore
  import opened Reconciliation
  import opened CasProtocol

  /* ---------- the invariant ---------- */

  /** No two threads hold the lock of one stripe. */
  ghost predicate Exclusive(p: Params, threads: map<Id, Thread>) {
    forall t, u :: t in threads && u in threads && t != u && Holding(threads[t]) && Holding(threads[u]) ==>
      Stripe(p, threads[t].ref) != Stripe(p, threads[u].ref)
  }

  /** A live row has its exact body. */
  ghost predicate BodiesBackRows(p: Params, s: Store) {
    forall a :: a in s.artifacts && Live(s.artifacts[a]) ==>
      Backed(p, s, s.artifacts[a].ref, s.artifacts[a].digest, s.artifacts[a].size)
  }

  /** Each row was inserted by the one upload that names it. */
  ghost predicate RowOfUpload(s: Store, a: Id)
    requires a in s.artifacts
  {
    var row := s.artifacts[a];
    && row.origin in s.uploads
    && s.uploads[row.origin].artifactId == Some(a)
    && s.uploads[row.origin].digest == row.digest
    && s.uploads[row.origin].size == row.size
    && s.uploads[row.origin].sources == row.sources
    && row.ref == StorageRef(row.digest) && ValidRef(row.ref)
    && FactsAgree(row)
  }

  ghost predicate RowsOfUploads(s: Store) {
    && (forall a :: a in s.artifacts ==> RowOfUpload(s, a))
    && (forall u :: u in s.uploads && s.uploads[u].state == UploadStaging ==> s.uploads[u].artifactId == None)
  }

  /** What a thread may rely on at its next step. */
  ghost predicate ThreadSound(p: Params, s: Store, th: Thread) {
    match th
    case Done(u, result) =>
      result.Some? ==> u in s.uploads && s.uploads[u].artifactId == result && result.value in s.artifacts
    case Commit(pc, u, digest, size, ref) =>
      && u in s.uploads && s.uploads[u].digest == digest && s.uploads[u].size == size
      && ref == StorageRef(digest)
      && (pc.Copied? ==> ValidRef(ref) && Matches(p, pc.copy, digest, size))
      && (pc.Linked? || pc.Published? || pc == Removed ==> Backed(p, s, ref, digest, size))
    case Collect(step, ref, _, _) => step in {Clear, Cleared} ==> NoLive(s, ref)
    case Sweep(_, _) => true
    case Reader(_, _) => true
  }

  ghost predicate ThreadsSound(p: Params, s: System) {
    forall t :: t in s.threads ==> ThreadSound(p, s.store, s.threads[t])
  }

  ghost predicate Core(p: Params, s: System) {
    && Exclusive(p, s.threads)
    && BodiesBackRows(p, s.store)
    && RowsOfUploads(s.store)
    && ThreadsSound(p, s)
  }

  /* ---------- changes that need no lock ---------- */

  /** A row as any later step may leave it. */
  ghost predicate RowAges(r: ArtifactRow, r': ArtifactRow) {
    && r'.digest == r.digest && r'.size == r.size && r'.ref == r.ref
    && r'.origin == r.origin && r'.sources == r.sources && r'.createdAt == r.createdAt
    && (Live(r') ==> Live(r))
    && (r'.lifecycle == Available ==> r.lifecycle == Available)
    && (FactsAgree(r) ==> FactsAgree(r'))
  }

  ghost predicate UploadAges(r: UploadRow, r': UploadRow) {
    && r'.digest == r.digest && r'.size == r.size && r'.sources == r.sources && r'.artifactId == r.artifactId
    && (r'.state == UploadStaging ==> r.state == UploadStaging)
  }

  ghost predicate RowsAge(s: Store, s': Store) {
    s'.artifacts.Keys == s.artifacts.Keys
    && forall a :: a in s.artifacts ==> RowAges(s.artifacts[a], s'.artifacts[a])
  }

  ghost predicate UploadsAge(s: Store, s': Store) {
    && (forall u :: u in s.uploads ==> u in s'.uploads && UploadAges(s.uploads[u], s'.uploads[u]))
    && (forall u :: u in s'.uploads && u !in s.uploads && s'.uploads[u].state == UploadStaging ==>
          s'.uploads[u].artifactId == None)
  }

  ghost predicate BodiesStay(s: Store, s': Store) {
    forall r :: r in s.bodies && ValidRef(r) ==> r in s'.bodies && s'.bodies[r] == s.bodies[r]
  }

  /** No body with a valid name goes, no row is added, and no row becomes live. */
  ghost predicate Quiet(s: Store, s': Store) {
    RowsAge(s, s') && UploadsAge(s, s') && BodiesStay(s, s')
  }

  predicate Collected(row: ArtifactRow) { row.lifecycle in {Tombstoned, Deleted} }

  /** No row becomes tombstoned or deleted, and no working reference is made or moved. */
  ghost predicate Calm(s: Store, s': Store) {
    && (forall a :: a in s.artifacts && a in s'.artifacts && Collected(s'.artifacts[a]) ==> Collected(s.artifacts[a]))
    && forall k :: k in s'.references ==> k in s.references && s'.references[k].artifactId == s.references[k].artifactId
  }

  /** What one step of any kind does to rows, uploads and references. */
  ghost predicate Ages(s: Store, s': Store) {
    && (forall a :: a in s.artifacts ==>
          && a in s'.artifacts && RowAges(s.artifacts[a], s'.artifacts[a])
          && (Collected(s'.artifacts[a]) ==> Collected(s.artifacts[a]) || a !in RootedArtifacts(s)))
    && (forall u :: u in s.uploads ==>
          && u in s'.uploads && s'.uploads[u].digest == s.uploads[u].digest
          && s'.uploads[u].size == s.uploads[u].size && s'.uploads[u].sources == s.uploads[u].sources
          && (s.uploads[u].artifactId.Some? ==> s'.uploads[u].artifactId == s.uploads[u].artifactId))
    && (forall k :: k in s'.references ==>
          || (k in s.references && s'.references[k].artifactId == s.references[k].artifactId)
          || (s'.references[k].artifactId in s'.artifacts
             && s'.artifacts[s'.references[k].artifactId].lifecycle == Available))
  }

  lemma CalmAges(s: Store, s': Store)
    requires Quiet(s, s') && Calm(s, s')
    ensures Ages(s, s')
  {
    forall u | u in s.uploads ensures u in s'.uploads && UploadAges(s.uploads[u], s'.uploads[u]) {}
  }

  lemma SameAges(s: Store)
    ensures Ages(s, s)
  {
    forall a | a in s.artifacts ensures RowAges(s.artifacts[a], s.artifacts[a]) {}
  }

  lemma QuietThread(p: Params, s: Store, s': Store, th: Thread)
    requires Quiet(s, s') && ThreadSound(p, s, th)
    ensures ThreadSound(p, s', th)
  {
    if th.Collect? && th.step in {Clear, Cleared} {
      forall a | a in s'.artifacts && s'.artifacts[a].ref == th.ref
        ensures !Live(s'.artifacts[a])
      {
        assert RowAges(s.artifacts[a], s'.artifacts[a]);
      }
    }
  }

  lemma QuietRows(p: Params, s: Store, s': Store)
    requires Quiet(s, s') && BodiesBackRows(p, s) && RowsOfUploads(s)
    ensures BodiesBackRows(p, s') && RowsOfUploads(s')
  {
    forall a | a in s'.artifacts
      ensures RowOfUpload(s', a)
      ensures Live(s'.artifacts[a]) ==> Backed(p, s', s'.artifacts[a].ref, s'.artifacts[a].digest, s'.artifacts[a].size)
    {
      assert RowAges(s.artifacts[a], s'.artifacts[a]) && RowOfUpload(s, a);
    }
    forall u | u in s'.uploads && s'.uploads[u].state == UploadStaging && u in s.uploads
      ensures s'.uploads[u].artifactId == None
    {
      assert UploadAges(s.uploads[u], s'.uploads[u]);
    }
  }

  /** A quiet change with the threads as they are. */
  lemma QuietKeeps(p: Params, s: System, store: Store)
    requires Core(p, s) && Quiet(s.store, store)
    ensures Core(p, s.(store := store))
    ensures Calm(s.store, store) ==> Ages(s.store, store)
  {
    if Calm(s.store, store) { CalmAges(s.store, store); }
    QuietRows(p, s.store, store);
    forall t | t in s.threads ensures ThreadSound(p, store, s.threads[t]) {
      QuietThread(p, s.store, store, s.threads[t]);
    }
  }

  /** A thread moves on, taking no lock that it did not hold. */
  lemma MoveKeeps(p: Params, s: System, t: Id, th: Thread)
    requires Core(p, s) && ThreadSound(p, s.store, th)
    requires Holding(th) ==> t in s.threads && Holding(s.threads[t]) && s.threads[t].ref == th.ref
    ensures Core(p, Put(s, t, th))
    ensures Ages(s.store, s.store)
  {
    SameAges(s.store);
  }

  lemma AcquireKeeps(p: Params, s: System, t: Id)
    requires Core(p, s)
    ensures Core(p, AcquireStep(p, s, t))
    ensures Ages(s.store, AcquireStep(p, s, t).store)
  {}

  /* ---------- the quiet operations ---------- */

  lemma SetAllQuiet(s: Store, ids: set<Id>, l: Lifecycle)
    requires l in {Missing, Corrupt, Tombstoned, Deleted}
    ensures Quiet(s, SetAll(s, ids, l))
    ensures l in {Missing, Corrupt} || ids <= (set a | a in s.artifacts && Collected(s.artifacts[a])) ==>
            Calm(s, SetAll(s, ids, l))
  {}

  lemma QuietTwice(s: Store, s': Store, s'': Store)
    requires Quiet(s, s') && Quiet(s', s'') && Calm(s, s') && Calm(s', s'')
    ensures Quiet(s, s'') && Calm(s, s'')
  {
    forall a | a in s.artifacts ensures RowAges(s.artifacts[a], s''.artifacts[a]) {
      assert RowAges(s.artifacts[a], s'.artifacts[a]) && RowAges(s'.artifacts[a], s''.artifacts[a]);
    }
    forall u | u in s.uploads ensures u in s''.uploads && UploadAges(s.uploads[u], s''.uploads[u]) {
      assert UploadAges(s.uploads[u], s'.uploads[u]) && UploadAges(s'.uploads[u], s''.uploads[u]);
    }
    forall u | u in s''.uploads && u !in s.uploads && s''.uploads[u].state == UploadStaging
      ensures s''.uploads[u].artifactId == None
    {
      if u in s'.uploads { assert UploadAges(s'.uploads[u], s''.uploads[u]); }
    }
  }

  /** A stale plan's row transaction is quiet too. */
  lemma {:induction false} ApplyRowsQuiet(s: Store, issues: seq<Issue>)
    ensures Quiet(s, ApplyRows(s, issues))
    ensures Calm(s, ApplyRows(s, issues))
    decreases |issues|
  {
    if issues != [] {
      ApplyRowQuiet(s, issues[0]);
      ApplyRowsQuiet(ApplyRow(s, issues[0]), issues[1..]);
      QuietTwice(s, ApplyRow(s, issues[0]), ApplyRows(s, issues));
    }
  }

  lemma SameRowsQuiet(s: Store, s': Store)
    requires s'.artifacts == s.artifacts && s'.uploads == s.uploads && s'.bodies == s.bodies
    requires forall k :: k in s'.references ==> k in s.references && s'.references[k] == s.references[k]
    ensures Quiet(s, s')
    ensures Calm(s, s')
  {}

  lemma UploadSetQuiet(s: Store, s': Store, u: Id, row: UploadRow)
    requires s'.artifacts == s.artifacts && s'.bodies == s.bodies && s'.uploads == s.uploads[u := row]
    requires s'.references == s.references
    requires if u in s.uploads then UploadAges(s.uploads[u], row) else row.artifactId == None
    ensures Quiet(s, s')
    ensures Calm(s, s')
  {}

  lemma BodyAddedQuiet(s: Store, ref: string, body: Bytes)
    requires ref !in s.bodies
    ensures Quiet(s, s.(bodies := s.bodies[ref := body]))
    ensures Calm(s, s.(bodies := s.bodies[ref := body]))
  {}

  lemma BodyDroppedQuiet(s: Store, ref: string)
    requires !ValidRef(ref)
    ensures Quiet(s, DeleteBody(s, ref))
    ensures Calm(s, DeleteBody(s, ref))
  {}

  lemma ApplyRowQuiet(s: Store, i: Issue)
    ensures Quiet(s, ApplyRow(s, i))
    ensures Calm(s, ApplyRow(s, i))
  {
    match i
    case MarkMissing(a, _) => SetAllQuiet(s, {a}, Missing);
    case MarkCorrupt(a, _) => SetAllQuiet(s, {a}, Corrupt);
    case DeleteReference(k) => SameRowsQuiet(s, ApplyRow(s, i));
    case DeleteCollection(c) => SameRowsQuiet(s, ApplyRow(s, i));
    case AbortExpired(u) =>
      if u in s.uploads {
        UploadSetQuiet(s, ApplyRow(s, i), u, s.uploads[u].(state := UploadAborted));
      } else {
        SameRowsQuiet(s, s);
      }
    case DeleteOrphan(_) => SameRowsQuiet(s, s);
  }

  lemma OpenQuiet(p: Params, s: Store, u: Id, digest: string, size: int, sources: seq<Id>, now: int)
    requires OpenUpload(p, s, u, digest, size, sources, now).Ok?
    ensures Quiet(s, OpenUpload(p, s, u, digest, size, sources, now).value)
    ensures Calm(s, OpenUpload(p, s, u, digest, size, sources, now).value)
  {
    var s' := OpenUpload(p, s, u, digest, size, sources, now).value;
    UploadSetQuiet(s, s', u, s'.uploads[u]);
  }

  lemma AbortQuiet(s: Store, u: Id, now: int)
    requires AbortUpload(s, u, now).Ok?
    ensures Quiet(s, AbortUpload(s, u, now).value)
    ensures Calm(s, AbortUpload(s, u, now).value)
  {
    UploadSetQuiet(s, AbortUpload(s, u, now).value, u, AbortUpload(s, u, now).value.uploads[u]);
  }

  lemma RejectRowQuiet(s: Store, u: Id, now: int)
    ensures Quiet(s, RejectRow(s, u, now))
    ensures Calm(s, RejectRow(s, u, now))
  {
    SameRowsQuiet(s, s);
    if u in s.uploads && s.uploads[u].state == UploadStaging {
      UploadSetQuiet(s, RejectRow(s, u, now), u, s.uploads[u].(state := UploadAborted, updatedAt := now));
    }
  }

  lemma AppendQuiet(p: Params, s: Store, u: Id, offset: int, content: Bytes, written: nat, commits: bool, now: int)
    ensures Quiet(s, AppendChunk(p, s, u, offset, content, written, commits, now))
    ensures Calm(s, AppendChunk(p, s, u, offset, content, written, commits, now))
  {
    var s' := AppendChunk(p, s, u, offset, content, written, commits, now);
    if s'.uploads == s.uploads {
      SameRowsQuiet(s, s');
    } else {
      UploadSetQuiet(s, s', u, s'.uploads[u]);
    }
  }

  /* ---------- steps of a commit ---------- */

  lemma ReadUploadKeeps(p: Params, s: System, t: Id)
    requires Core(p, s)
    ensures Core(p, ReadUploadStep(s, t))
    ensures Ages(s.store, ReadUploadStep(s, t).store)
  {
    if At(s, t, Locked) && s.threads[t].upload in s.store.uploads {
      assert ThreadSound(p, s.store, s.threads[t]);
      MoveKeeps(p, s, t, ReadUploadStep(s, t).threads[t]);
    }
  }

  /** A quiet change of the store together with a move of one thread. */
  lemma QuietMoveKeeps(p: Params, s: System, store: Store, t: Id, th: Thread)
    requires Core(p, s) && Quiet(s.store, store) && ThreadSound(p, store, th)
    requires Calm(s.store, store) || Ages(s.store, store)
    requires Holding(th) ==> t in s.threads && Holding(s.threads[t]) && s.threads[t].ref == th.ref
    ensures Core(p, Put(s, t, th).(store := store))
    ensures Ages(s.store, store)
  {
    if Calm(s.store, store) { CalmAges(s.store, store); }
    QuietKeeps(p, s, store);
    MoveKeeps(p, s.(store := store), t, th);
  }

  lemma InspectKeeps(p: Params, s: System, t: Id, now: int)
    requires Core(p, s)
    ensures Core(p, InspectStep(p, s, t, now))
    ensures Ages(s.store, InspectStep(p, s, t, now).store)
  {
    if t in s.threads && s.threads[t].Commit? && s.threads[t].pc.Sized? {
      var th, s' := s.threads[t], InspectStep(p, s, t, now);
      assert ThreadSound(p, s.store, th);
      if th.upload in s.store.staging && p.secret(s.store.staging[th.upload]) {
        RejectRowQuiet(s.store, th.upload, now);
        QuietThread(p, s.store, s'.store, th);
        QuietMoveKeeps(p, s, s'.store, t, s'.threads[t]);
      } else {
        MoveKeeps(p, s, t, s'.threads[t]);
      }
    }
  }

  lemma StatKeeps(p: Params, s: System, t: Id)
    requires Core(p, s)
    ensures Core(p, StatStep(s, t))
    ensures Ages(s.store, StatStep(s, t).store)
  {
    SameAges(s.store);
    if StatStep(s, t) != s {
      assert ThreadSound(p, s.store, s.threads[t]);
      MoveKeeps(p, s, t, StatStep(s, t).threads[t]);
    }
  }

  lemma DiscardKeeps(p: Params, s: System, t: Id)
    requires Core(p, s)
    ensures Core(p, DiscardStep(s, t))
    ensures Ages(s.store, DiscardStep(s, t).store)
  {
    SameAges(s.store);
    if At(s, t, Discarding) {
      SameRowsQuiet(s.store, Unstaged(s.store, s.threads[t].upload));
      QuietMoveKeeps(p, s, Unstaged(s.store, s.threads[t].upload), t, Done(s.threads[t].upload, None));
    }
  }

  lemma CopyKeeps(p: Params, s: System, t: Id, tmp: string)
    requires Core(p, s)
    ensures Core(p, CopyStep(p, s, t, tmp))
    ensures Ages(s.store, CopyStep(p, s, t, tmp).store)
  {
    SameAges(s.store);
    if t in s.threads && s.threads[t].Commit? && s.threads[t].pc.Inspected? {
      var th, s' := s.threads[t], CopyStep(p, s, t, tmp);
      assert ThreadSound(p, s.store, th);
      if s'.store == s.store {
        MoveKeeps(p, s, t, s'.threads[t]);
      } else {
        BodyAddedQuiet(s.store, tmp, s.store.staging[th.upload]);
        QuietMoveKeeps(p, s, s'.store, t, s'.threads[t]);
      }
    }
  }

  lemma LinkKeeps(p: Params, s: System, t: Id)
    requires Core(p, s)
    ensures Core(p, LinkStep(p, s, t))
    ensures Ages(s.store, LinkStep(p, s, t).store)
  {
    if t in s.threads && s.threads[t].Commit? && s.threads[t].pc.Copied? {
      var th, s' := s.threads[t], LinkStep(p, s, t);
      assert ThreadSound(p, s.store, th);
      if th.ref !in s.store.bodies {
        BodyAddedQuiet(s.store, th.ref, th.pc.copy);
        QuietMoveKeeps(p, s, s'.store, t, s'.threads[t]);
      } else {
        MoveKeeps(p, s, t, s'.threads[t]);
      }
    }
  }

  lemma RemoveTemporaryKeeps(p: Params, s: System, t: Id)
    requires Core(p, s)
    ensures Core(p, RemoveTemporaryStep(s, t))
    ensures Ages(s.store, RemoveTemporaryStep(s, t).store)
  {
    if t in s.threads && s.threads[t].Commit? && (s.threads[t].pc.Linked? || s.threads[t].pc.Spoiled?) {
      var s' := RemoveTemporaryStep(s, t);
      if !ValidRef(s.threads[t].pc.tmp) { BodyDroppedQuiet(s.store, s.threads[t].pc.tmp); }
      SameRowsQuiet(s.store, s.store);
      QuietThread(p, s.store, s'.store, s.threads[t]);
      QuietMoveKeeps(p, s, s'.store, t, s'.threads[t]);
    }
  }

  lemma UnstageKeeps(p: Params, s: System, t: Id)
    requires Core(p, s)
    ensures Core(p, UnstageStep(s, t))
    ensures Ages(s.store, UnstageStep(s, t).store)
  {
    if t in s.threads && s.threads[t].Commit? && s.threads[t].pc.Published? {
      var s' := UnstageStep(s, t);
      SameRowsQuiet(s.store, s'.store);
      QuietThread(p, s.store, s'.store, s.threads[t]);
      QuietMoveKeeps(p, s, s'.store, t, s'.threads[t]);
    }
  }

  lemma RecoverKeeps(p: Params, s: System, t: Id)
    requires Core(p, s)
    ensures Core(p, RecoverStep(p, s, t))
    ensures Ages(s.store, RecoverStep(p, s, t).store)
  {
    if At(s, t, Ready) && s.threads[t].upload !in s.store.staging {
      assert ThreadSound(p, s.store, s.threads[t]);
      MoveKeeps(p, s, t, RecoverStep(p, s, t).threads[t]);
    }
  }

  /* ---------- the steps that the lock protects ---------- */

  lemma InsertCollector(s: Store, u: Id, a: Id, now: int, ref: string)
    requires u in s.uploads && a !in s.artifacts && NoLive(s, ref) && ref != StorageRef(s.uploads[u].digest)
    ensures NoLive(InsertArtifact(s, u, a, now), ref)
  {}

  /** What the other threads rely on, when a row is inserted for a body that this thread
      verified under its lock. */
  lemma InsertThread(p: Params, s: System, t: Id, a: Id, now: int, t': Id)
    requires Core(p, s) && At(s, t, Removed) && s.threads[t].upload in s.store.uploads && a !in s.store.artifacts
    requires s.store.uploads[s.threads[t].upload].state == UploadStaging
    requires t' in s.threads && t' != t
    ensures ThreadSound(p, InsertArtifact(s.store, s.threads[t].upload, a, now), s.threads[t'])
  {
    var th, th' := s.threads[t], s.threads[t'];
    assert ThreadSound(p, s.store, th) && ThreadSound(p, s.store, th');
    if th'.Collect? {
      if th'.step in {Clear, Cleared} {
        assert Stripe(p, th.ref) != Stripe(p, th'.ref);
        InsertCollector(s.store, th.upload, a, now, th'.ref);
      }
    }
  }

  lemma InsertRows(p: Params, s: Store, u: Id, a: Id, now: int)
    requires BodiesBackRows(p, s) && RowsOfUploads(s)
    requires u in s.uploads && s.uploads[u].state == UploadStaging && a !in s.artifacts
    requires Backed(p, s, StorageRef(s.uploads[u].digest), s.uploads[u].digest, s.uploads[u].size)
    ensures BodiesBackRows(p, InsertArtifact(s, u, a, now)) && RowsOfUploads(InsertArtifact(s, u, a, now))
  {
    var s' := InsertArtifact(s, u, a, now);
    forall b | b in s'.artifacts ensures RowOfUpload(s', b) {
      if b != a { assert RowOfUpload(s, b); }
    }
  }

  lemma InsertKeeps(p: Params, s: System, t: Id, a: Id, now: int)
    requires Core(p, s)
    ensures Core(p, InsertRowStep(s, t, a, now))
    ensures Ages(s.store, InsertRowStep(s, t, a, now).store)
  {
    if At(s, t, Removed) && s.threads[t].upload in s.store.uploads && a !in s.store.artifacts {
      var th, s' := s.threads[t], InsertRowStep(s, t, a, now);
      assert ThreadSound(p, s.store, th);
      if s.store.uploads[th.upload].state == UploadStaging {
        InsertRows(p, s.store, th.upload, a, now);
        forall t' | t' in s.threads && t' != t ensures ThreadSound(p, s'.store, s.threads[t']) {
          InsertThread(p, s, t, a, now, t');
        }
      } else {
        MoveKeeps(p, s, t, s'.threads[t]);
      }
    }
  }

  lemma RemoveThread(p: Params, s: System, t: Id, t': Id)
    requires Core(p, s) && AtCollect(s, t, Clear) && t' in s.threads && t' != t
    ensures ThreadSound(p, DeleteBody(s.store, s.threads[t].ref), s.threads[t'])
  {
    assert ThreadSound(p, s.store, s.threads[t']);
    if s.threads[t'].Commit? && s.threads[t'].pc != Waiting {
      assert Stripe(p, s.threads[t].ref) != Stripe(p, s.threads[t'].ref);
    }
  }

  /** Deleting a body that this thread found unclaimed under its lock. */
  lemma RemoveBodyKeeps(p: Params, s: System, t: Id)
    requires Core(p, s)
    ensures Core(p, RemoveBodyStep(s, t))
    ensures Ages(s.store, RemoveBodyStep(s, t).store)
  {
    if AtCollect(s, t, Clear) {
      var th, s' := s.threads[t], RemoveBodyStep(s, t);
      assert ThreadSound(p, s.store, th);
      if ValidRef(th.ref) {
        assert BodiesBackRows(p, s'.store);
        forall a | a in s.store.artifacts ensures RowOfUpload(s'.store, a) { assert RowOfUpload(s.store, a); }
        forall t' | t' in s.threads && t' != t ensures ThreadSound(p, s'.store, s.threads[t']) {
          RemoveThread(p, s, t, t');
        }
      } else {
        MoveKeeps(p, s, t, Done(0, None));
      }
    }
  }

  lemma MarkDeletedKeeps(p: Params, s: System, t: Id)
    requires Core(p, s)
    ensures Core(p, MarkDeletedStep(s, t))
    ensures Ages(s.store, MarkDeletedStep(s, t).store)
  {
    if AtCollect(s, t, Cleared) {
      var th, s' := s.threads[t], MarkDeletedStep(s, t);
      SetAllQuiet(s.store, TombstonedAt(s.store, th.ref), Deleted);
      SameRowsQuiet(s.store, s.store);
      QuietMoveKeeps(p, s, s'.store, t, s'.threads[t]);
    }
  }

  lemma CheckLiveKeeps(p: Params, s: System, t: Id)
    requires Core(p, s)
    ensures Core(p, CheckLiveStep(s, t))
    ensures Ages(s.store, CheckLiveStep(s, t).store)
  {
    if AtCollect(s, t, Entered) {
      MoveKeeps(p, s, t, CheckLiveStep(s, t).threads[t]);
    }
  }

  /** The tombstone transaction collects nothing that the roots lead to. */
  lemma TombstoneAges(s: Store, plan: Id)
    requires Tombstone(s, plan).Ok? && !s.gcPlans[plan].applied
    ensures Quiet(s, Tombstone(s, plan).value) && Ages(s, Tombstone(s, plan).value)
  {
    var s', ids := Tombstone(s, plan).value, AvailableAmong(s, s.gcPlans[plan].candidates);
    SetAllQuiet(s, ids, Tombstoned);
    SameRowsQuiet(SetAll(s, ids, Tombstoned), s');
    forall a | a in ids ensures a !in RootedArtifacts(s) {
      assert a in s.gcPlans[plan].candidates;
    }
    SetAllAges(s, ids);
  }

  lemma SetAllAges(s: Store, ids: set<Id>)
    requires forall a :: a in ids ==> a !in RootedArtifacts(s)
    ensures Ages(s, SetAll(s, ids, Tombstoned))
  {
    SetAllQuiet(s, ids, Tombstoned);
    forall u | u in s.uploads ensures UploadAges(s.uploads[u], s.uploads[u]) {}
  }

  lemma ApplyGcKeeps(p: Params, s: System, t: Id, plan: Id)
    requires Core(p, s)
    ensures Core(p, ApplyGcStep(s, t, plan))
    ensures Ages(s.store, ApplyGcStep(s, t, plan).store)
  {
    var s' := ApplyGcStep(s, t, plan);
    SameAges(s.store);
    if Free(s, t) && Tombstone(s.store, plan).Ok? && !s.store.gcPlans[plan].applied {
      TombstoneAges(s.store, plan);
      QuietMoveKeeps(p, s, s'.store, t, s'.threads[t]);
    }
  }

  lemma ObserveKeeps(p: Params, s: System, t: Id)
    requires Core(p, s)
    ensures Core(p, ObserveStep(p, s, t))
    ensures Ages(s.store, ObserveStep(p, s, t).store)
  {
    if ObserveStep(p, s, t) != s {
      MoveKeeps(p, s, t, ObserveStep(p, s, t).threads[t]);
    }
  }

  lemma MarkReadKeeps(p: Params, s: System, t: Id)
    requires Core(p, s)
    ensures Core(p, MarkReadStep(s, t))
    ensures Ages(s.store, MarkReadStep(s, t).store)
  {
    if t in s.threads && s.threads[t].Reader? && s.threads[t].verdict in {Some(Missing), Some(Corrupt)} {
      var store := SetAll(s.store, {s.threads[t].artifact}, s.threads[t].verdict.value);
      SetAllQuiet(s.store, {s.threads[t].artifact}, s.threads[t].verdict.value);
      QuietMoveKeeps(p, s, store, t, Done(0, None));
    }
  }

  lemma EnterKeeps(p: Params, s: System, t: Id)
    requires Core(p, s)
    ensures Core(p, EnterStep(p, s, t))
    ensures Ages(s.store, EnterStep(p, s, t).store)
  {
    SameAges(s.store);
  }

  /* ---------- every event ---------- */

  lemma StoreStepQuiet(p: Params, s: Store, e: StoreEvent)
    ensures Quiet(s, StoreStep(p, s, e)) && Calm(s, StoreStep(p, s, e))
  {
    SameRowsQuiet(s, s);
    match e
    case Open(u, digest, size, sources, now) =>
      if OpenUpload(p, s, u, digest, size, sources, now).Ok? { OpenQuiet(p, s, u, digest, size, sources, now); }
    case Append(u, offset, content, written, commits, now) =>
      AppendQuiet(p, s, u, offset, content, written, commits, now);
    case Abort(u, now, commits) =>
      SameRowsQuiet(s, Unstaged(s, u));
      if AbortUpload(s, u, now).Ok? { AbortQuiet(s, u, now); }
    case Expire(u) => SameRowsQuiet(s, Unstaged(s, u));
    case ReconcileRows(issues) => ApplyRowsQuiet(s, issues);
  }

  lemma {:induction false} RowsKeepBodies(s: Store, issues: seq<Issue>)
    ensures ApplyRows(s, issues).bodies == s.bodies
    decreases |issues|
  {
    if issues != [] {
      RowKeepsBodies(s, issues[0]);
      RowsKeepBodies(ApplyRow(s, issues[0]), issues[1..]);
    }
  }

  lemma RowKeepsBodies(s: Store, i: Issue)
    ensures ApplyRow(s, i).bodies == s.bodies
  {}

  lemma StoreKeepsBodies(p: Params, s: Store, e: StoreEvent)
    ensures StoreStep(p, s, e).bodies == s.bodies
  {
    match e
    case Open(u, digest, size, sources, now) => OpenKeepsBodies(p, s, u, digest, size, sources, now);
    case Append(u, offset, content, written, commits, now) =>
      AppendKeepsBodies(p, s, u, offset, content, written, commits, now);
    case Abort(u, now, commits) => AbortKeepsBodies(s, u, now, commits);
    case Expire(_) =>
    case ReconcileRows(issues) => RowsKeepBodies(s, issues);
  }

  lemma OpenKeepsBodies(p: Params, s: Store, u: Id, digest: string, size: int, sources: seq<Id>, now: int)
    ensures Or(s, OpenUpload(p, s, u, digest, size, sources, now)).bodies == s.bodies
  {}

  lemma AppendKeepsBodies(
    p: Params, s: Store, u: Id, offset: int, content: Bytes, written: nat, commits: bool, now: int)
    ensures AppendChunk(p, s, u, offset, content, written, commits, now).bodies == s.bodies
  {}

  lemma AbortKeepsBodies(s: Store, u: Id, now: int, commits: bool)
    ensures AbortStep(s, u, now, commits).bodies == s.bodies
  {}

  lemma ReferenceAges(s: Store, key: ReferenceKey, a: Id, expected: int)
    requires UpdateReference(s, key, a, expected).Ok?
    ensures var s' := UpdateReference(s, key, a, expected).value; Quiet(s, s') && Ages(s, s')
  {
    var s' := UpdateReference(s, key, a, expected).value;
    SameRowsQuiet(s, s'.(references := s.references));
    SameAges(s);
    forall k | k in s'.references && k != key ensures k in s.references && s'.references[k] == s.references[k] {}
  }

  predicate SameRows(s: Store, s': Store) {
    s'.artifacts == s.artifacts && s'.uploads == s.uploads && s'.bodies == s.bodies
  }

  lemma PlanGcFrame(s: Store, plan: Id, watermark: int, candidates: seq<Id>)
    ensures SameRows(s, PlanGcStep(s, plan, watermark, candidates))
    ensures PlanGcStep(s, plan, watermark, candidates).references == s.references
  {
    WithGcPlanFrame(s, plan, GcPlan(candidates, watermark, false));
  }

  lemma WithGcPlanFrame(s: Store, plan: Id, row: GcPlan)
    ensures SameRows(s, WithGcPlan(s, plan, row)) && WithGcPlan(s, plan, row).references == s.references
  {}

  lemma ReferenceFrame(s: Store, key: ReferenceKey, a: Id, expected: int)
    ensures SameRows(s, RootStep(s, Reference(key, a, expected)))
  {}

  lemma HoldFrame(s: Store, a: Id, reason: string)
    ensures SameRows(s, RootStep(s, Hold(a, reason))) && RootStep(s, Hold(a, reason)).references == s.references
  {}

  lemma ReleaseFrame(s: Store, a: Id)
    ensures SameRows(s, RootStep(s, ReleaseHold(a))) && RootStep(s, ReleaseHold(a)).references == s.references
    ensures SameRows(s, RootStep(s, ReleasePin(a))) && RootStep(s, ReleasePin(a)).references == s.references
  {}

  lemma PinFrame(s: Store, a: Id)
    ensures SameRows(s, RootStep(s, Pin(a))) && RootStep(s, Pin(a)).references == s.references
  {}

  lemma CollectionFrame(s: Store, c: Id, entries: map<string, Id>)
    ensures SameRows(s, RootStep(s, Collection(c, entries)))
            && RootStep(s, Collection(c, entries)).references == s.references
  {}

  lemma RootStepFrame(s: Store, e: RootEvent)
    ensures SameRows(s, RootStep(s, e))
    ensures !e.Reference? ==> RootStep(s, e).references == s.references
  {
    match e
    case Reference(key, a, expected) => ReferenceFrame(s, key, a, expected);
    case Hold(a, reason) => HoldFrame(s, a, reason);
    case ReleaseHold(a) => ReleaseFrame(s, a);
    case Pin(a) => PinFrame(s, a);
    case ReleasePin(a) => ReleaseFrame(s, a);
    case Collection(c, entries) => CollectionFrame(s, c, entries);
    case Evidence(_) =>
    case PlanGc(plan, watermark, candidates) => PlanGcFrame(s, plan, watermark, candidates);
  }

  lemma SameRowsAges(s: Store, s': Store)
    requires s'.artifacts == s.artifacts && s'.uploads == s.uploads && s'.bodies == s.bodies
             && s'.references == s.references
    ensures Quiet(s, s') && Ages(s, s')
  {
    SameRowsQuiet(s, s');
    CalmAges(s, s');
  }

  lemma RootStepAges(s: Store, e: RootEvent)
    ensures Quiet(s, RootStep(s, e)) && Ages(s, RootStep(s, e))
  {
    if e.Reference? {
      if UpdateReference(s, e.key, e.a, e.expected).Ok? {
        ReferenceAges(s, e.key, e.a, e.expected);
      } else {
        SameRowsAges(s, s);
      }
    } else {
      RootStepFrame(s, e);
      SameRowsAges(s, RootStep(s, e));
    }
  }

  lemma CommitStepKeeps(p: Params, s: System, t: Id, e: CommitEvent)
    requires Core(p, s)
    ensures Core(p, CommitStep(p, s, t, e))
    ensures Ages(s.store, CommitStep(p, s, t, e).store)
  {
    match e
    case BeginCommit(u) =>
      SameAges(s.store);
      if BeginCommitStep(s, t, u) != s { MoveKeeps(p, s, t, BeginCommitStep(s, t, u).threads[t]); }
    case Acquire => AcquireKeeps(p, s, t);
    case ReadUpload => ReadUploadKeeps(p, s, t);
    case Stat => StatKeeps(p, s, t);
    case Inspect(now) => InspectKeeps(p, s, t, now);
    case Discard => DiscardKeeps(p, s, t);
    case Copy(tmp) => CopyKeeps(p, s, t, tmp);
    case LinkBody => LinkKeeps(p, s, t);
    case RemoveTemporary => RemoveTemporaryKeeps(p, s, t);
    case Unstage => UnstageKeeps(p, s, t);
    case Recover => RecoverKeeps(p, s, t);
    case InsertRow(a, now) => InsertKeeps(p, s, t, a, now);
  }

  lemma CollectStepKeeps(p: Params, s: System, t: Id, e: CollectEvent)
    requires Core(p, s)
    ensures Core(p, CollectStep(p, s, t, e))
    ensures Ages(s.store, CollectStep(p, s, t, e).store)
  {
    SameAges(s.store);
    match e
    case ApplyGc(plan) => ApplyGcKeeps(p, s, t, plan);
    case BeginOrphans(refs) => if Free(s, t) { MoveKeeps(p, s, t, Sweep(refs, false)); }
    case NextRef(ref) => if NextRefStep(s, t, ref) != s { MoveKeeps(p, s, t, NextRefStep(s, t, ref).threads[t]); }
    case Enter => EnterKeeps(p, s, t);
    case CheckLive => CheckLiveKeeps(p, s, t);
    case RemoveBody => RemoveBodyKeeps(p, s, t);
    case MarkDeleted => MarkDeletedKeeps(p, s, t);
  }

  lemma ReadStepKeeps(p: Params, s: System, t: Id, e: ReadEvent)
    requires Core(p, s)
    ensures Core(p, ReadStep(p, s, t, e))
    ensures Ages(s.store, ReadStep(p, s, t, e).store)
  {
    SameAges(s.store);
    match e
    case BeginRead(a) => if BeginReadStep(s, t, a) != s { MoveKeeps(p, s, t, Reader(a, None)); }
    case Observe => ObserveKeeps(p, s, t);
    case MarkRead => MarkReadKeeps(p, s, t);
  }

  /** Every event keeps the invariant, and ages rows, uploads and references. */
  lemma StepKeeps(p: Params, s: System, e: Event)
    requires Core(p, s)
    ensures Core(p, Step(p, s, e))
    ensures Ages(s.store, Step(p, s, e).store)
  {
    match e
    case OnStore(e) =>
      StoreStepQuiet(p, s.store, e);
      QuietKeeps(p, s, StoreStep(p, s.store, e));
    case OnRoots(e) =>
      RootStepAges(s.store, e);
      QuietKeeps(p, s, RootStep(s.store, e));
    case ByCommit(t, e) => CommitStepKeeps(p, s, t, e);
    case ByCollector(t, e) => CollectStepKeeps(p, s, t, e);
    case ByReader(t, e) => ReadStepKeeps(p, s, t, e);
    case Crash => SameAges(s.store);
  }
}
