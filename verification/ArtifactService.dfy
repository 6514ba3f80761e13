/** The durable artifact service as an object whose calls rewrite its rows, staged files and
    bodies in place, each proved against the functions of the store. New identities and clock
    readings are arguments. */
module ArtifactService {
  import opened Outcomes
  import opened Listings
  import opened ArtifactRoots
  import opened ArtifactStore
  import opened ArtifactCalls
  import opened Reconciliation

  class DurableArtifactService {
    const p: Params
    var artifacts: map<Id, ArtifactRow>
    var uploads: map<Id, UploadRow>
    var references: map<ReferenceKey, ReferenceRow>
    var holds: map<Id, string>
    var pins: set<Id>
    var collections: map<Id, map<string, Id>>
    var evidence: set<Id>
    var gcPlans: map<Id, GcPlan>
    var plans: map<Id, ReconcilePlan>
    var staging: map<Id, Bytes>
    var bodies: map<string, Bytes>

    function State(): Store
      reads this
    {
      Store(artifacts, uploads, references, holds, pins, collections, evidence, gcPlans, plans, staging, bodies)
    }

    constructor (p: Params)
      ensures this.p == p && State() == EMPTY
    {
      this.p := p;
      artifacts, uploads, references, holds, pins := map[], map[], map[], map[], {};
      collections, evidence, gcPlans, plans, staging, bodies := map[], {}, map[], map[], map[], map[];
    }

    method OpenUpload(digest: string, size: int, sources: seq<Id>, u: Id, now: int) returns (r: Result<()>)
      modifies this`uploads, this`staging
      ensures var spec := ArtifactStore.OpenUpload(p, old(State()), u, digest, size, sources, now);
              && State() == (if spec.Ok? then spec.value else old(State()))
              && r == (if spec.Ok? then Ok(()) else Refused(spec.code))
    {
      if !ValidDigest(p, digest) { return Refused(ArtifactError); }
      for i := 0 to |sources|
        invariant SourcesAvailable(State(), sources[..i])
      {
        assert sources[..i + 1] == sources[..i] + [sources[i]];
        if sources[i] !in artifacts || artifacts[sources[i]].lifecycle != Available { return Refused(ArtifactError); }
      }
      assert sources[..|sources|] == sources;
      if size < 0 || size > p.maxArtifactBytes { return Refused(ArtifactError); }
      if u in uploads || u in staging { return Refused(Conflict); }
      staging := staging[u := []];
      uploads := uploads[u := UploadRow(digest, size, 0, UploadStaging, None, sources, now)];
      return Ok(());
    }

    method AppendChunk(u: Id, offset: int, content: Bytes, now: int) returns (r: Result<()>)
      modifies this`uploads, this`staging
      ensures State() == ArtifactStore.AppendChunk(p, old(State()), u, offset, content, |content|, true, now)
      ensures r == AppendCheck(p, old(State()), u, offset, content)
    {
      if content == [] || |content| > p.maxChunkBytes { return Refused(ArtifactError); }
      if u !in uploads { return Refused(ArtifactError); }
      var row := uploads[u];
      if row.state != UploadStaging || offset != row.offset { return Refused(RevisionMismatch); }
      if row.offset + |content| > row.size { return Refused(ArtifactError); }
      if u !in staging || |staging[u]| != row.offset { return Refused(ArtifactError); }
      staging := staging[u := staging[u] + content];
      assert content == content[..|content|];
      uploads := uploads[u := row.(offset := row.offset + |content|, updatedAt := now)];
      return Ok(());
    }

    method CommitUpload(u: Id, a: Id, now: int) returns (r: Result<Id>)
      modifies this`artifacts, this`uploads, this`staging, this`bodies
      ensures (State(), r) == Commit(p, old(State()), u, a, now)
    {
      if u !in uploads { return Refused(ArtifactError); }
      var row := uploads[u];
      var ref := StorageRef(row.digest);
      if row.state == UploadCommitted && row.artifactId.Some? && row.artifactId.value in artifacts {
        return Ok(row.artifactId.value);
      }
      if row.state != UploadStaging { return Refused(ArtifactError); }
      if u in staging {
        if p.secret(staging[u]) {
          staging := staging - {u};
          uploads := uploads[u := row.(state := UploadAborted, updatedAt := now)];
          return Refused(SecretContent);
        }
        if !ValidRef(ref) || !Matches(p, staging[u], row.digest, row.size) { return Refused(ArtifactError); }
        if ref !in bodies {
          bodies := bodies[ref := staging[u]];
        } else if !Matches(p, bodies[ref], row.digest, row.size) {
          return Refused(ArtifactError);
        }
        staging := staging - {u};
      } else if !Backed(p, State(), ref, row.digest, row.size) {
        return Refused(ArtifactError);
      }
      artifacts := artifacts[a := ArtifactRow(row.digest, row.size, ref, Available, Facts(true, Passed, Untrusted),
        row.sources, now, u)];
      uploads := uploads[u := row.(state := UploadCommitted, artifactId := Some(a), updatedAt := now)];
      return Ok(a);
    }

    method AbortUpload(u: Id, now: int) returns (r: Result<()>)
      modifies this`uploads, this`staging
      ensures var spec := ArtifactStore.AbortUpload(old(State()), u, now);
              && State() == (if spec.Ok? then spec.value else old(State()))
              && r == (if spec.Ok? then Ok(()) else Refused(spec.code))
    {
      if u !in uploads || uploads[u].state == UploadCommitted { return Refused(ArtifactError); }
      staging := staging - {u};
      uploads := uploads[u := uploads[u].(state := UploadAborted, updatedAt := now)];
      return Ok(());
    }

    /** Upload `content` in chunks of the configured size, and commit it: no chunk is refused,
        whatever the content and the positive chunk bound. */
    method PutBytes(content: Bytes, sources: seq<Id>, u: Id, a: Id, now: int) returns (r: Result<Id>)
      requires p.maxChunkBytes > 0
      modifies this`artifacts, this`uploads, this`staging, this`bodies
      ensures (State(), r) == Put(p, old(State()), content, sources, u, a, now)
    {
      ghost var begun := ArtifactStore.OpenUpload(p, State(), u, p.digest(content), |content|, sources, now);
      var opening := OpenUpload(p.digest(content), |content|, sources, u, now);
      if opening.Refused? {
        return Refused(opening.code);
      }
      var offset := 0;
      assert State() == Filed(begun.value, u, content, 0, now) by {
        assert uploads == uploads[u := uploads[u].(offset := 0, updatedAt := now)];
        assert staging == staging[u := content[..0]];
      }
      while offset < |content|
        invariant 0 <= offset <= |content|
        invariant State() == Filed(begun.value, u, content, offset, now)
      {
        var end := if offset + p.maxChunkBytes < |content| then offset + p.maxChunkBytes else |content|;
        ChunkIsAccepted(p, begun.value, u, content, offset, end, now);
        var appended := AppendChunk(u, offset, content[offset..end], now);
        assert appended.Ok?;
        offset := end;
      }
      r := CommitUpload(u, a, now);
    }

    /** Check the body and stream it in chunks; the stream is the body. */
    method ReadBytes(a: Id) returns (r: Result<Bytes>)
      requires p.maxChunkBytes > 0
      modifies this`artifacts
      ensures (State(), r) == Read(p, old(State()), a)
    {
      if a !in artifacts || artifacts[a].lifecycle != Available { return Refused(ArtifactError); }
      var row := artifacts[a];
      if row.ref !in bodies || !Matches(p, bodies[row.ref], row.digest, row.size) {
        var found := if row.ref in bodies then Corrupt else Missing;
        artifacts := SetRows(artifacts, {a}, found);
        return Refused(ArtifactError);
      }
      var content, offset := [], 0;
      while offset < |bodies[row.ref]|
        invariant 0 <= offset <= |bodies[row.ref]|
        invariant content == bodies[row.ref][..offset]
      {
        var end := if offset + p.maxChunkBytes < |bodies[row.ref]| then offset + p.maxChunkBytes else |bodies[row.ref]|;
        content := content + bodies[row.ref][offset..end];
        offset := end;
      }
      assert bodies[row.ref][..offset] == bodies[row.ref];
      return Ok(content);
    }

    method UpdateReference(key: ReferenceKey, a: Id, expected: int) returns (r: Result<nat>)
      modifies this`references
      ensures var spec := ArtifactStore.UpdateReference(old(State()), key, a, expected);
              && State() == (if spec.Ok? then spec.value else old(State()))
              && r == (if spec.Ok? then Ok(expected + 1) else Refused(spec.code))
    {
      if a !in artifacts || artifacts[a].lifecycle != Available { return Refused(ArtifactError); }
      var current := if key in references then references[key].revision else 0;
      if current != expected { return Refused(RevisionMismatch); }
      if key in references {
        references := references[key := ReferenceRow(a, current + 1, Some((references[key].artifactId, current)))];
      } else {
        references := references[key := ReferenceRow(a, 1, None)];
      }
      return Ok(current + 1);
    }

    method PlanGc(plan: Id, watermark: int)
      modifies this`gcPlans
      ensures plan in gcPlans
      ensures State() == old(State()).(gcPlans := old(gcPlans)[plan := gcPlans[plan]])
      ensures gcPlans[plan].watermark == watermark && !gcPlans[plan].applied
      ensures forall a :: a in gcPlans[plan].candidates <==> Collectable(old(State()), watermark, a)
    {
      var rooted := RootedIds(ProvenanceEdges(State()), DirectRoots(State()));
      var ids := Listing(artifacts.Keys);
      var candidates := [];
      for i := 0 to |ids|
        invariant forall a :: a in candidates <==> a in ids[..i] && Collectable(State(), watermark, a)
      {
        var a := ids[i];
        assert ids[..i + 1] == ids[..i] + [a];
        if artifacts[a].lifecycle == Available && artifacts[a].createdAt < watermark && a !in rooted {
          candidates := candidates + [a];
        }
      }
      assert ids[..|ids|] == ids;
      gcPlans := gcPlans[plan := GcPlan(candidates, watermark, false)];
    }

    /** The tombstone loop: all available candidates, or nothing if one is rooted. */
    method TombstoneCandidates(plan: Id) returns (r: Result<set<Id>>)
      requires plan in gcPlans && !gcPlans[plan].applied
      modifies this`artifacts, this`gcPlans
      ensures var spec := Tombstone(old(State()), plan);
              && State() == (if spec.Ok? then spec.value else old(State()))
              && r == (if spec.Ok? then Ok(AvailableAmong(old(State()), old(gcPlans)[plan].candidates))
                 else Refused(RevisionMismatch))
    {
      var rooted := RootedIds(ProvenanceEdges(State()), DirectRoots(State()));
      var candidates := gcPlans[plan].candidates;
      var ids: set<Id> := {};
      for i := 0 to |candidates|
        invariant ids == AvailableAmong(State(), candidates[..i])
        invariant forall a :: a in candidates[..i] ==> a !in rooted
      {
        var a := candidates[i];
        assert candidates[..i + 1] == candidates[..i] + [a];
        if a in rooted {
          assert a in candidates;
          return Refused(RevisionMismatch);
        }
        if a in artifacts && artifacts[a].lifecycle == Available { ids := ids + {a}; }
      }
      assert candidates[..|candidates|] == candidates;
      artifacts := SetRows(artifacts, ids, Tombstoned);
      gcPlans := gcPlans[plan := gcPlans[plan].(applied := true)];
      return Ok(ids);
    }

    /** One reference of a collection, under its lock: nothing while a live row claims it,
        otherwise delete the body and mark its tombstoned rows deleted. */
    method SweepRef(ref: string)
      modifies this`artifacts, this`bodies
      ensures State() == Swept(old(State()), {ref})
    {
      if NoLive(State(), ref) {
        SweepOne(State(), ref);
        bodies := bodies - {ref};
        artifacts := SetRows(artifacts, TombstonedAt(State(), ref), Deleted);
      } else {
        SweepNone(State(), ref);
      }
    }

    method SweepRefs(refs: seq<string>)
      modifies this`artifacts, this`bodies
      ensures State() == Swept(old(State()), Elements(refs))
    {
      SweptNothing(State());
      assert Elements(refs[..0]) == {};
      for i := 0 to |refs|
        invariant State() == Swept(old(State()), Elements(refs[..i]))
      {
        SweptUnion(old(State()), Elements(refs[..i]), refs[i]);
        SweepRef(refs[i]);
        ElementsOfPrefix(refs, i);
      }
      assert refs[..|refs|] == refs;
    }

    method ApplyGc(plan: Id) returns (r: Result<()>)
      modifies this`artifacts, this`gcPlans, this`bodies
      ensures plan !in old(gcPlans) ==> State() == old(State()) && r == Refused(ArtifactError)
      ensures plan in old(gcPlans) && old(gcPlans)[plan].applied ==> State() == old(State()) && r == Ok(())
      ensures plan in old(gcPlans) && !old(gcPlans)[plan].applied ==>
              (State(), r) == ArtifactCalls.ApplyGc(old(State()), plan)
    {
      if plan !in gcPlans { return Refused(ArtifactError); }
      if gcPlans[plan].applied { return Ok(()); }
      var visited := artifacts;
      var tombstoned := TombstoneCandidates(plan);
      if tombstoned.Refused? { return Refused(tombstoned.code); }
      var refs := Listing(set a | a in tombstoned.value && a in visited :: visited[a].ref);
      SweepRefs(refs);
      assert Elements(refs) == RefsOf(old(State()), tombstoned.value);
      return Ok(());
    }

    /* ---------- reconciliation ---------- */

    method ExpiredIssues(now: int) returns (issues: seq<Issue>)
      ensures forall i :: i in issues <==> i.AbortExpired? && Diagnosed(p, State(), now, i)
    {
      issues := [];
      var ids := Listing(uploads.Keys);
      for n := 0 to |ids|
        invariant forall i :: i in issues <==>
                  i.AbortExpired? && i.uploadId in ids[..n] && Diagnosed(p, State(), now, i)
      {
        assert ids[..n + 1] == ids[..n] + [ids[n]];
        if ExpiredAt(p, uploads[ids[n]], now) { issues := issues + [AbortExpired(ids[n])]; }
      }
      assert ids[..|ids|] == ids;
    }

    /** The row loop: what to mark, and which artifacts are then unavailable. */
    method BodyIssues(now: int) returns (issues: seq<Issue>, unavailable: set<Id>)
      ensures forall i :: i in issues <==> (i.MarkMissing? || i.MarkCorrupt?) && Diagnosed(p, State(), now, i)
      ensures unavailable == Unavailable(p, State())
    {
      issues, unavailable := [], {};
      var ids := Listing(artifacts.Keys);
      for n := 0 to |ids|
        invariant forall i :: i in issues <==>
                    (i.MarkMissing? || i.MarkCorrupt?) && i.artifactId in ids[..n] && Diagnosed(p, State(), now, i)
        invariant forall a :: a in unavailable <==> a in ids[..n] && a in Unavailable(p, State())
      {
        var a, row := ids[n], artifacts[ids[n]];
        assert ids[..n + 1] == ids[..n] + [a];
        if Inspected(row) {
          if row.ref !in bodies {
            unavailable, issues := unavailable + {a}, issues + [MarkMissing(a, row.ref)];
          } else if !Matches(p, bodies[row.ref], row.digest, row.size) {
            unavailable, issues := unavailable + {a}, issues + [MarkCorrupt(a, row.ref)];
          }
        }
      }
      assert ids[..|ids|] == ids;
    }

    method OrphanIssues(now: int) returns (issues: seq<Issue>)
      ensures forall i :: i in issues <==> i.DeleteOrphan? && Diagnosed(p, State(), now, i)
    {
      issues := [];
      var claimed := set a | a in artifacts && Claims(artifacts[a]) :: artifacts[a].ref;
      assert forall r :: r in claimed <==> !Unclaimed(State(), r);
      var refs := Listing(bodies.Keys);
      for n := 0 to |refs|
        invariant forall i :: i in issues <==> i.DeleteOrphan? && i.ref in refs[..n] && Diagnosed(p, State(), now, i)
      {
        assert refs[..n + 1] == refs[..n] + [refs[n]];
        if Listed(refs[n]) && refs[n] !in claimed { issues := issues + [DeleteOrphan(refs[n])]; }
      }
      assert refs[..|refs|] == refs;
    }

    method ReferenceIssues(unavailable: set<Id>, now: int) returns (issues: seq<Issue>)
      requires unavailable == Unavailable(p, State())
      ensures forall i :: i in issues <==> i.DeleteReference? && Diagnosed(p, State(), now, i)
    {
      issues := [];
      var keys := Listing(references.Keys);
      for n := 0 to |keys|
        invariant forall i :: i in issues <==> i.DeleteReference? && i.key in keys[..n] && Diagnosed(p, State(), now, i)
      {
        assert keys[..n + 1] == keys[..n] + [keys[n]];
        if BadTarget(State(), unavailable, references[keys[n]].artifactId) {
          issues := issues + [DeleteReference(keys[n])];
        }
      }
      assert keys[..|keys|] == keys;
    }

    method CollectionIssues(unavailable: set<Id>, now: int) returns (issues: seq<Issue>)
      requires unavailable == Unavailable(p, State())
      ensures forall i :: i in issues <==> i.DeleteCollection? && Diagnosed(p, State(), now, i)
    {
      issues := [];
      var ids := Listing(collections.Keys);
      for n := 0 to |ids|
        invariant forall i :: i in issues <==>
                  i.DeleteCollection? && i.collectionId in ids[..n] && Diagnosed(p, State(), now, i)
      {
        assert ids[..n + 1] == ids[..n] + [ids[n]];
        if Incomplete(State(), unavailable, collections[ids[n]]) { issues := issues + [DeleteCollection(ids[n])]; }
      }
      assert ids[..|ids|] == ids;
    }

    /** Record a plan of everything that is wrong now. */
    method PlanReconciliation(plan: Id, now: int)
      modifies this`plans
      ensures plan in plans && plans[plan].createdAt == now && !plans[plan].applied
      ensures State() == old(State()).(plans := old(plans)[plan := plans[plan]])
      ensures IsPlan(p, old(State()), now, plans[plan].issues)
    {
      var expired := ExpiredIssues(now);
      var marks, unavailable := BodyIssues(now);
      var orphans := OrphanIssues(now);
      var dangling := ReferenceIssues(unavailable, now);
      var incomplete := CollectionIssues(unavailable, now);
      plans := plans[plan := ReconcilePlan(expired + marks + orphans + dangling + incomplete, now, false)];
    }

    method ValidatePlan(made: int, issues: seq<Issue>) returns (accepted: bool)
      ensures accepted <==> Accepted(p, State(), made, issues)
    {
      for n := 0 to |issues|
        invariant forall i :: i in issues[..n] ==> StillHolds(p, State(), made, PlannedUnavailable(issues), i)
      {
        assert issues[..n + 1] == issues[..n] + [issues[n]];
        if !StillHolds(p, State(), made, PlannedUnavailable(issues), issues[n]) {
          assert issues[n] in issues;
          return false;
        }
      }
      assert issues[..|issues|] == issues;
      return true;
    }

    method DeleteOrphanBodies(issues: seq<Issue>) returns (ok: bool)
      modifies this`bodies
      ensures (State(), ok) == DeleteOrphans(old(State()), issues)
    {
      for n := 0 to |issues|
        invariant unchanged(this`artifacts, this`uploads, this`references, this`holds, this`pins, this`collections,
                            this`evidence, this`gcPlans, this`plans, this`staging)
        invariant DeleteOrphans(State(), issues[n..]) == DeleteOrphans(old(State()), issues)
      {
        var i := issues[n];
        assert issues[n..][1..] == issues[n + 1..];
        if i.DeleteOrphan? && NoLive(State(), i.ref) {
          if !ValidRef(i.ref) { return false; }
          bodies := bodies - {i.ref};
        }
      }
      return true;
    }

    method ApplyIssueRows(issues: seq<Issue>)
      modifies this`artifacts, this`references, this`collections, this`uploads
      ensures State() == ApplyRows(old(State()), issues)
    {
      for n := 0 to |issues|
        invariant ApplyRows(State(), issues[n..]) == ApplyRows(old(State()), issues)
      {
        assert issues[n..][1..] == issues[n + 1..];
        match issues[n]
        case MarkMissing(a, _) => artifacts := SetRows(artifacts, {a}, Missing);
        case MarkCorrupt(a, _) => artifacts := SetRows(artifacts, {a}, Corrupt);
        case DeleteReference(k) => references := references - {k};
        case DeleteCollection(c) => collections := collections - {c};
        case AbortExpired(u) => if u in uploads { uploads := uploads[u := uploads[u].(state := UploadAborted)]; }
        case DeleteOrphan(_) =>
      }
    }

    method ApplyReconciliation(plan: Id) returns (r: Result<()>)
      modifies this`artifacts, this`references, this`collections, this`uploads, this`bodies, this`staging, this`plans
      ensures (State(), r) == Apply(p, old(State()), plan)
    {
      if plan !in plans { return Refused(ArtifactError); }
      if plans[plan].applied { return Ok(()); }
      var issues := plans[plan].issues;
      var accepted := ValidatePlan(plans[plan].createdAt, issues);
      if !accepted { return Refused(RevisionMismatch); }
      var ok := DeleteOrphanBodies(issues);
      if !ok { return Refused(ArtifactError); }
      ApplyIssueRows(issues);
      staging := staging - EffectsOf(issues).expired;
      plans := plans[plan := plans[plan].(applied := true)];
      return Ok(());
    }
  }
}
