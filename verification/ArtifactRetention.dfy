/** What keeps an artifact from being collected, in terms of the rows that name it. */
module ArtifactRetention {
  import opened Outcomes
  import opened ArtifactRoots
  import opened ArtifactStore
  import opened ArtifactCalls

  /** A working reference, hold, pin, collection entry or piece of evidence names the artifact. */
  predicate Kept(s: Store, a: Id) {
    || (exists k :: k in s.references && s.references[k].artifactId == a)
    || a in s.holds
    || a in s.pins
    || (exists c, n :: c in s.collections && n in s.collections[c] && s.collections[c][n] == a)
    || a in s.evidence
  }

  /** Each artifact after the first is a source of the one before it. */
  predicate Derivation(s: Store, path: seq<Id>) {
    && path != []
    && forall i :: 0 <= i < |path| - 1 ==> path[i] in s.artifacts && path[i + 1] in s.artifacts[path[i]].sources
  }

  /** The derivation starts at an artifact that some row keeps, and ends at `a`. */
  predicate KeepsAlong(s: Store, path: seq<Id>, a: Id) {
    Derivation(s, path) && Kept(s, path[0]) && path[|path| - 1] == a
  }

  /** The artifact is kept, or something kept was derived from it. */
  ghost predicate Spared(s: Store, a: Id) { exists path :: KeepsAlong(s, path, a) }

  lemma KeptIsRoot(s: Store, a: Id)
    ensures a in DirectRoots(s) <==> Kept(s, a)
  {
    if c, n :| c in s.collections && n in s.collections[c] && s.collections[c][n] == a { assert a in DirectRoots(s); }
  }

  lemma SparedIsRooted(s: Store, a: Id)
    ensures a in RootedArtifacts(s) <==> Spared(s, a)
  {
    var edges, roots := ProvenanceEdges(s), DirectRoots(s);
    if path :| KeepsAlong(s, path, a) {
      KeptIsRoot(s, path[0]);
      assert IsPath(edges, roots, path);
    }
    if a in RootedArtifacts(s) {
      var path :| IsPath(edges, roots, path) && path[|path| - 1] == a;
      KeptIsRoot(s, path[0]);
      forall i | 0 <= i < |path| - 1 ensures path[i] in s.artifacts && path[i + 1] in s.artifacts[path[i]].sources {
        assert path[i + 1] in Sources(edges, path[i]);
      }
      assert KeepsAlong(s, path, a);
    }
  }

  /** A plan's candidates are exactly the available artifacts created before the watermark that nothing spares. */
  lemma PlansSpareExactly(s: Store, watermark: int, a: Id)
    ensures Collectable(s, watermark, a) <==>
            && a in s.artifacts && s.artifacts[a].lifecycle == Available && s.artifacts[a].createdAt < watermark
            && !Spared(s, a)
  {
    SparedIsRooted(s, a);
  }

  /** A plan not yet applied is refused exactly when it lists an artifact that is spared by now; otherwise its
      available candidates are tombstoned, and no other row changes. */
  lemma TombstoneSparesExactly(s: Store, plan: Id)
    requires plan in s.gcPlans && !s.gcPlans[plan].applied
    ensures Tombstone(s, plan).Refused? <==> exists a :: a in s.gcPlans[plan].candidates && Spared(s, a)
    ensures Tombstone(s, plan).Refused? ==> Tombstone(s, plan).code == RevisionMismatch
    ensures Tombstone(s, plan).Ok? ==>
              var s' := Tombstone(s, plan).value;
              && s'.artifacts.Keys == s.artifacts.Keys && s'.gcPlans.Keys == s.gcPlans.Keys
              && s' == s.(artifacts := s'.artifacts, gcPlans := s'.gcPlans)
              && s'.gcPlans == s.gcPlans[plan := s.gcPlans[plan].(applied := true)]
              && forall a :: a in s.artifacts ==> TombstonedBy(s, plan, s', a)
  {
    forall a ensures a in RootedArtifacts(s) <==> Spared(s, a) { SparedIsRooted(s, a); }
  }

  predicate TombstonedBy(s: Store, plan: Id, s': Store, a: Id)
    requires plan in s.gcPlans && a in s.artifacts && a in s'.artifacts
  {
    var row, row' := s.artifacts[a], s'.artifacts[a];
    if a in s.gcPlans[plan].candidates && row.lifecycle == Available
    then row'.lifecycle == Tombstoned && SameIdentity(row, row') && !row'.facts.available
    else row' == row
  }

  /** What a row keeps for good. */
  predicate SameIdentity(row: ArtifactRow, row': ArtifactRow) {
    && row'.digest == row.digest && row'.size == row.size && row'.ref == row.ref && row'.sources == row.sources
    && row'.createdAt == row.createdAt && row'.origin == row.origin
  }

  /** Whatever spares an artifact spares everything it was derived from. */
  lemma SourcesAreSpared(s: Store, a: Id, x: Id)
    requires Spared(s, a) && a in s.artifacts && x in s.artifacts[a].sources
    ensures Spared(s, x)
  {
    var path :| KeepsAlong(s, path, a);
    assert KeepsAlong(s, path + [x], x);
  }

  /** The plan collects the artifact. */
  predicate Taken(s: Store, plan: Id, a: Id)
    requires plan in s.gcPlans
  {
    a in s.gcPlans[plan].candidates && a in s.artifacts && s.artifacts[a].lifecycle == Available
  }

  /** A row that the plan does not collect still keeps the body. */
  predicate StillClaimed(s: Store, plan: Id, ref: string)
    requires plan in s.gcPlans
  {
    exists b :: b in s.artifacts && s.artifacts[b].ref == ref && !Taken(s, plan, b)
                && s.artifacts[b].lifecycle !in {Tombstoned, Deleted, Missing, Corrupt}
  }

  lemma ClaimedAfterTombstone(s: Store, plan: Id, ref: string)
    requires plan in s.gcPlans && !s.gcPlans[plan].applied && Tombstone(s, plan).Ok?
    ensures NoLive(Tombstone(s, plan).value, ref) <==> !StillClaimed(s, plan, ref)
  {
    var ids := AvailableAmong(s, s.gcPlans[plan].candidates);
    LiveAfterTombstone(s, ids, ref);
    forall a ensures a in ids <==> Taken(s, plan, a) {}
    assert Tombstone(s, plan).value.artifacts == SetAll(s, ids, Tombstoned).artifacts;
  }

  lemma SweptRow(s: Store, refs: set<string>, a: Id)
    requires a in s.artifacts
    ensures a in Swept(s, refs).artifacts
    ensures Swept(s, refs).artifacts[a] ==
            if s.artifacts[a].ref in refs && NoLive(s, s.artifacts[a].ref) && s.artifacts[a].lifecycle == Tombstoned
            then SetLifecycle(s.artifacts[a], Deleted) else s.artifacts[a]
  {}

  /** What applying a plan leaves of each row. One that it collects is deleted once no other row keeps the body,
      and tombstoned until then; apart from rows that were tombstoned before, every other stays as it is. */
  lemma CollectedExactly(s: Store, plan: Id, a: Id)
    requires plan in s.gcPlans && !s.gcPlans[plan].applied && Tombstone(s, plan).Ok? && a in s.artifacts
    ensures var s' := ApplyGc(s, plan).0;
            && a in s'.artifacts && SameIdentity(s.artifacts[a], s'.artifacts[a])
            && (Taken(s, plan, a) ==>
                  s'.artifacts[a].lifecycle
                  == if StillClaimed(s, plan, s.artifacts[a].ref) then Tombstoned else Deleted)
            && (!Taken(s, plan, a) && s.artifacts[a].lifecycle != Tombstoned ==> s'.artifacts[a] == s.artifacts[a])
  {
    TombstoneSparesExactly(s, plan);
    var s1, refs := Tombstone(s, plan).value, RefsOf(s, AvailableAmong(s, s.gcPlans[plan].candidates));
    assert TombstonedBy(s, plan, s1, a);
    ClaimedAfterTombstone(s, plan, s.artifacts[a].ref);
    SweptRow(s1, refs, a);
    if Taken(s, plan, a) { assert s.artifacts[a].ref in refs; }
  }

  /** A body goes exactly when the plan collects a row of it and no other row keeps it. */
  lemma BodiesGoExactly(s: Store, plan: Id, ref: string)
    requires plan in s.gcPlans && !s.gcPlans[plan].applied && Tombstone(s, plan).Ok? && ref in s.bodies
    ensures var s' := ApplyGc(s, plan).0;
            && (ref !in s'.bodies <==>
                  !StillClaimed(s, plan, ref) && exists a :: Taken(s, plan, a) && s.artifacts[a].ref == ref)
            && (ref in s'.bodies ==> s'.bodies[ref] == s.bodies[ref])
  {
    ClaimedAfterTombstone(s, plan, ref);
    var refs := RefsOf(s, AvailableAmong(s, s.gcPlans[plan].candidates));
    forall a ensures a in AvailableAmong(s, s.gcPlans[plan].candidates) <==> Taken(s, plan, a) {}
    assert ref in refs <==> exists a :: Taken(s, plan, a) && s.artifacts[a].ref == ref;
  }
}
