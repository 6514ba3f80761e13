/** What a reconciliation repairs, and what no plan, however stale, can harm. */
module ReconciliationOutcomes {
  import opened Outcomes
  import opened ArtifactRoots
  import opened ArtifactStore
  import opened ArtifactRetention
  import opened Reconciliation
  import opened ReconciliationReplay

  /* ---------- in terms of rows, bodies and times ---------- */

  /** The row's body is there, with the recorded digest and size. */
  predicate Intact(p: Params, s: Store, a: Id) {
    && a in s.artifacts && s.artifacts[a].ref in s.bodies
    && p.digest(s.bodies[s.artifacts[a].ref]) == s.artifacts[a].digest
    && |s.bodies[s.artifacts[a].ref]| == s.artifacts[a].size
  }

  /** Reconciliation looks at the body of the row, and finds it missing or different. */
  predicate Broken(p: Params, s: Store, a: Id) {
    a in s.artifacts && s.artifacts[a].lifecycle in {Available, Validating, Quarantined} && !Intact(p, s, a)
  }

  /** The artifact can be used: it is available and its body is intact. */
  predicate Usable(p: Params, s: Store, a: Id) {
    a in s.artifacts && s.artifacts[a].lifecycle == Available && Intact(p, s, a)
  }

  /** A row that is neither tombstoned nor deleted names the body. */
  predicate Named(s: Store, ref: string) {
    exists a :: a in s.artifacts && s.artifacts[a].ref == ref && s.artifacts[a].lifecycle !in {Tombstoned, Deleted}
  }

  /** The upload was not committed, and was last touched longer than the limit before the plan was made. */
  predicate Stale(p: Params, s: Store, made: int, u: Id) {
    && u in s.uploads && s.uploads[u].state != UploadCommitted
    && p.stagingTtl.Some? && s.uploads[u].updatedAt + p.stagingTtl.value < made
  }

  lemma DiagnosedExactly(p: Params, s: Store, now: int, i: Issue)
    ensures Diagnosed(p, s, now, i) <==>
            match i
            case MarkMissing(a, ref) => Broken(p, s, a) && ref == s.artifacts[a].ref && ref !in s.bodies
            case MarkCorrupt(a, ref) => Broken(p, s, a) && ref == s.artifacts[a].ref && ref in s.bodies
            case DeleteOrphan(ref) => ref in s.bodies && Listed(ref) && !Named(s, ref)
            case DeleteReference(k) => k in s.references && !Usable(p, s, s.references[k].artifactId)
            case DeleteCollection(c) =>
              c in s.collections && exists n :: n in s.collections[c] && !Usable(p, s, s.collections[c][n])
            case AbortExpired(u) => Stale(p, s, now, u)
  {
    forall a ensures BadTarget(s, Unavailable(p, s), a) <==> !Usable(p, s, a) {}
    match i
    case MarkMissing(_, _) =>
    case MarkCorrupt(_, _) =>
    case DeleteOrphan(_) =>
    case DeleteReference(_) =>
    case DeleteCollection(c) => if c in s.collections { SomeBadEntry(p, s, c); }
    case AbortExpired(_) =>
  }

  lemma SomeBadEntry(p: Params, s: Store, c: Id)
    requires c in s.collections && forall a :: BadTarget(s, Unavailable(p, s), a) <==> !Usable(p, s, a)
    ensures Incomplete(s, Unavailable(p, s), s.collections[c]) <==>
            exists n :: n in s.collections[c] && !Usable(p, s, s.collections[c][n])
  {
    if n :| n in s.collections[c] && !Usable(p, s, s.collections[c][n]) {
      assert BadTarget(s, Unavailable(p, s), s.collections[c][n]);
    }
  }

  /* ---------- a plan applied where it was made ---------- */

  predicate RepairedRow(p: Params, s: Store, s': Store, a: Id) {
    && a in s.artifacts && a in s'.artifacts
    && if Broken(p, s, a)
       then s'.artifacts[a].lifecycle == (if s.artifacts[a].ref in s.bodies then Corrupt else Missing)
            && SameIdentity(s.artifacts[a], s'.artifacts[a]) && !s'.artifacts[a].facts.available
       else s'.artifacts[a] == s.artifacts[a]
  }

  predicate RepairedUpload(p: Params, s: Store, made: int, s': Store, u: Id) {
    && u in s.uploads && u in s'.uploads
    && s'.uploads[u] == if Stale(p, s, made, u) then s.uploads[u].(state := UploadAborted) else s.uploads[u]
  }

  lemma PlannedSets(p: Params, s: Store, made: int)
    ensures var e := Diagnosis(p, s, made);
            && (forall a :: a in e.missing <==> Broken(p, s, a) && s.artifacts[a].ref !in s.bodies)
            && (forall a :: a in e.corrupt <==> Broken(p, s, a) && s.artifacts[a].ref in s.bodies)
            && (forall r :: r in e.orphans <==> r in s.bodies && Listed(r) && !Named(s, r))
            && (forall u :: u in e.expired <==> Stale(p, s, made, u))
  {}

  lemma PlannedKeys(p: Params, s: Store, made: int)
    ensures var e := Diagnosis(p, s, made);
            && (forall k :: k in e.keys <==> k in s.references && !Usable(p, s, s.references[k].artifactId))
            && (forall c :: c in e.collections <==>
                  c in s.collections && exists n :: n in s.collections[c] && !Usable(p, s, s.collections[c][n]))
  {
    forall a ensures BadTarget(s, Unavailable(p, s), a) <==> !Usable(p, s, a) {}
    forall c | c in s.collections
      ensures Incomplete(s, Unavailable(p, s), s.collections[c]) <==>
              exists n :: n in s.collections[c] && !Usable(p, s, s.collections[c][n])
    {
      SomeBadEntry(p, s, c);
    }
  }

  /** A plan that completes where it was made marks exactly the broken rows, deletes exactly the references and
      collections that name something unusable and the listed bodies that no row names, aborts exactly the stale
      uploads and unlinks their staged files. Nothing else changes. */
  lemma RepairsExactly(p: Params, s: Store, plan: Id)
    requires Planned(p, s, plan) && Apply(p, s, plan).1.Ok?
    ensures var s', made := Apply(p, s, plan).0, s.plans[plan].createdAt;
            && s'.artifacts.Keys == s.artifacts.Keys && (forall a :: a in s.artifacts ==> RepairedRow(p, s, s', a))
            && s'.uploads.Keys == s.uploads.Keys
            && (forall u :: u in s.uploads ==> RepairedUpload(p, s, made, s', u))
            && (forall u :: u in s'.staging <==> u in s.staging && !Stale(p, s, made, u))
            && (forall k :: k in s'.references <==> k in s.references && Usable(p, s, s.references[k].artifactId))
            && (forall c :: c in s'.collections <==>
                  c in s.collections && forall n :: n in s.collections[c] ==> Usable(p, s, s.collections[c][n]))
            && (forall r :: r in s'.bodies <==> r in s.bodies && (Listed(r) ==> Named(s, r)))
    ensures var s' := Apply(p, s, plan).0;
            && (forall u :: u in s'.staging ==> s'.staging[u] == s.staging[u])
            && (forall k :: k in s'.references ==> s'.references[k] == s.references[k])
            && (forall c :: c in s'.collections ==> s'.collections[c] == s.collections[c])
            && (forall r :: r in s'.bodies ==> s'.bodies[r] == s.bodies[r])
            && s'.holds == s.holds && s'.pins == s.pins && s'.evidence == s.evidence && s'.gcPlans == s.gcPlans
            && plan in s'.plans && s'.plans == s.plans[plan := s.plans[plan].(applied := true)]
  {
    NothingIsPartial(s, PlanDiagnosis(p, s, plan));
    ResumeEndsTheSame(p, s, plan, s);
    PlannedSets(p, s, s.plans[plan].createdAt);
    PlannedKeys(p, s, s.plans[plan].createdAt);
  }

  /** The listing shows every body that the store may hold. */
  lemma BodiesAreListed(ref: string)
    requires ValidRef(ref)
    ensures Listed(ref)
  {
    forall i | 0 <= i < |ref[10..]| ensures ref[10..][i] != '/' { assert IsHex(ref[10 + i]); }
  }

  /* ---------- any plan, applied anywhere ---------- */

  predicate Marks(i: Issue, a: Id) { (i.MarkMissing? || i.MarkCorrupt?) && i.artifactId == a }

  /** What the row transaction changes is named by one of its issues. */
  ghost predicate Touches(s: Store, issues: seq<Issue>, s': Store) {
    && s'.artifacts.Keys == s.artifacts.Keys && s'.uploads.Keys == s.uploads.Keys
    && (forall a :: a in s.artifacts && s'.artifacts[a] != s.artifacts[a] ==> exists i :: i in issues && Marks(i, a))
    && (forall u :: u in s.uploads && s'.uploads[u] != s.uploads[u] ==> AbortExpired(u) in issues)
    && (forall k :: k in s.references && k !in s'.references ==> DeleteReference(k) in issues)
    && (forall k :: k in s'.references ==> k in s.references && s'.references[k] == s.references[k])
    && (forall c :: c in s.collections && c !in s'.collections ==> DeleteCollection(c) in issues)
    && (forall c :: c in s'.collections ==> c in s.collections && s'.collections[c] == s.collections[c])
    && s'.bodies == s.bodies && s'.staging == s.staging && s'.plans == s.plans
  }

  lemma TouchesOne(s: Store, i: Issue)
    ensures Touches(s, [i], ApplyRow(s, i))
  {
    assert i in [i];
    match i
    case MarkMissing(a, _) => MarkTouchesOne(s, i, a, Missing);
    case MarkCorrupt(a, _) => MarkTouchesOne(s, i, a, Corrupt);
    case AbortExpired(u) => if u in s.uploads { AbortTouchesOne(s, u); }
    case DeleteReference(_) =>
    case DeleteCollection(_) =>
    case DeleteOrphan(_) =>
  }

  lemma MarkTouchesOne(s: Store, i: Issue, a: Id, l: Lifecycle)
    requires Marks(i, a)
    ensures Touches(s, [i], SetAll(s, {a}, l))
  {
    assert i in [i];
  }

  lemma AbortTouchesOne(s: Store, u: Id)
    requires u in s.uploads
    ensures Touches(s, [AbortExpired(u)], s.(uploads := s.uploads[u := s.uploads[u].(state := UploadAborted)]))
  {}

  lemma TouchesBoth(s: Store, s': Store, s'': Store, issues: seq<Issue>)
    requires issues != [] && Touches(s, [issues[0]], s') && Touches(s', issues[1..], s'')
    ensures Touches(s, issues, s'')
  {
    assert issues == [issues[0]] + issues[1..];
    assert forall i :: i in issues <==> i in [issues[0]] || i in issues[1..];
  }

  lemma {:induction false} RowsTouch(s: Store, issues: seq<Issue>)
    ensures Touches(s, issues, ApplyRows(s, issues))
    decreases |issues|
  {
    if issues != [] {
      TouchesOne(s, issues[0]);
      RowsTouch(ApplyRow(s, issues[0]), issues[1..]);
      TouchesBoth(s, ApplyRow(s, issues[0]), ApplyRows(s, issues), issues);
    }
  }

  /** Bodies go only as named orphans, and nothing else is changed. */
  ghost predicate OrphansGo(s: Store, issues: seq<Issue>, s': Store) {
    && s' == s.(bodies := s'.bodies)
    && (forall r :: r in s'.bodies ==> r in s.bodies && s'.bodies[r] == s.bodies[r])
    && (forall r :: r in s.bodies && r !in s'.bodies ==> DeleteOrphan(r) in issues)
  }

  lemma {:induction false} OrphansTouch(s: Store, issues: seq<Issue>)
    ensures OrphansGo(s, issues, DeleteOrphans(s, issues).0)
    decreases |issues|
  {
    if issues != [] {
      var (s', ok) := DeleteOne(s, issues[0]);
      assert OrphansGo(s, [issues[0]], s') by { assert issues[0] in [issues[0]]; }
      assert issues == [issues[0]] + issues[1..];
      if ok { OrphansTouch(s', issues[1..]); }
    }
  }

  lemma {:induction false} PlannedBelong(issues: seq<Issue>)
    ensures forall a :: a in PlannedUnavailable(issues) ==> exists i :: i in issues && Marks(i, a)
    ensures forall u :: u in EffectsOf(issues).expired ==> AbortExpired(u) in issues
  {
    if issues != [] {
      PlannedBelong(issues[1..]);
      forall a | a in PlannedUnavailable(issues) ensures exists i :: i in issues && Marks(i, a) {
        if a in PlannedUnavailable(issues[1..]) {
          var i :| i in issues[1..] && Marks(i, a);
          assert i in issues;
        } else {
          assert issues[0] in issues && Marks(issues[0], a);
        }
      }
    }
  }

  lemma MarkedIsBroken(p: Params, s: Store, made: int, issues: seq<Issue>, a: Id)
    requires Accepted(p, s, made, issues) && exists i :: i in issues && Marks(i, a)
    ensures !Intact(p, s, a)
  {
    var i :| i in issues && Marks(i, a);
    assert StillHolds(p, s, made, PlannedUnavailable(issues), i);
  }

  lemma NamedIsUnusable(p: Params, s: Store, made: int, issues: seq<Issue>, a: Id)
    requires Accepted(p, s, made, issues) && BadTarget(s, PlannedUnavailable(issues), a)
    ensures !Usable(p, s, a)
  {
    PlannedBelong(issues);
    if a in PlannedUnavailable(issues) { MarkedIsBroken(p, s, made, issues, a); }
  }

  /** Only rows without an intact body are marked, only references and collections that name something unusable and
      bodies that no row names are deleted, and only uploads that the plan's own time makes stale are aborted and lose
      their staged files. */
  ghost predicate Harmless(p: Params, s: Store, made: int, s': Store) {
    && s'.artifacts.Keys == s.artifacts.Keys && s'.uploads.Keys == s.uploads.Keys
    && (forall a :: a in s.artifacts && s'.artifacts[a] != s.artifacts[a] ==> !Intact(p, s, a))
    && (forall u :: u in s.uploads && s'.uploads[u] != s.uploads[u] ==> Stale(p, s, made, u))
    && (forall u :: u in s.staging && u !in s'.staging ==> Stale(p, s, made, u))
    && (forall k :: k in s.references && k !in s'.references ==> !Usable(p, s, s.references[k].artifactId))
    && (forall c :: c in s.collections && c !in s'.collections ==>
          exists n :: n in s.collections[c] && !Usable(p, s, s.collections[c][n]))
    && (forall r :: r in s.bodies && r !in s'.bodies ==> !Named(s, r))
  }

  lemma AcceptedDeletesUnusable(p: Params, s: Store, made: int, issues: seq<Issue>, k: ReferenceKey)
    requires Accepted(p, s, made, issues) && DeleteReference(k) in issues && k in s.references
    ensures !Usable(p, s, s.references[k].artifactId)
  {
    assert StillHolds(p, s, made, PlannedUnavailable(issues), DeleteReference(k));
    NamedIsUnusable(p, s, made, issues, s.references[k].artifactId);
  }

  lemma AcceptedDeletesIncomplete(p: Params, s: Store, made: int, issues: seq<Issue>, c: Id)
    requires Accepted(p, s, made, issues) && DeleteCollection(c) in issues && c in s.collections
    ensures exists n :: n in s.collections[c] && !Usable(p, s, s.collections[c][n])
  {
    assert StillHolds(p, s, made, PlannedUnavailable(issues), DeleteCollection(c));
    var n :| n in s.collections[c] && BadTarget(s, PlannedUnavailable(issues), s.collections[c][n]);
    NamedIsUnusable(p, s, made, issues, s.collections[c][n]);
  }

  lemma TouchedIsHarmless(p: Params, s: Store, made: int, issues: seq<Issue>, x: Store, y: Store, s': Store)
    requires Accepted(p, s, made, issues) && OrphansGo(s, issues, x) && Touches(x, issues, y)
    requires s' == y.(staging := y.staging - EffectsOf(issues).expired)
    ensures Harmless(p, s, made, s')
  {
    PlannedBelong(issues);
    forall a | a in s.artifacts && s'.artifacts[a] != s.artifacts[a] ensures !Intact(p, s, a) {
      MarkedIsBroken(p, s, made, issues, a);
    }
    forall u | AbortExpired(u) in issues ensures Stale(p, s, made, u) {
      assert StillHolds(p, s, made, PlannedUnavailable(issues), AbortExpired(u));
    }
    forall k | k in s.references && k !in s'.references ensures !Usable(p, s, s.references[k].artifactId) {
      AcceptedDeletesUnusable(p, s, made, issues, k);
    }
    forall c | c in s.collections && c !in s'.collections
      ensures exists n :: n in s.collections[c] && !Usable(p, s, s.collections[c][n])
    {
      AcceptedDeletesIncomplete(p, s, made, issues, c);
    }
    forall r | r in s.bodies && r !in s'.bodies ensures !Named(s, r) {
      assert StillHolds(p, s, made, PlannedUnavailable(issues), DeleteOrphan(r));
    }
  }

  lemma OrphansAloneAreHarmless(p: Params, s: Store, made: int, issues: seq<Issue>, x: Store)
    requires Accepted(p, s, made, issues) && OrphansGo(s, issues, x)
    ensures Harmless(p, s, made, x)
  {
    forall r | r in s.bodies && r !in x.bodies ensures !Named(s, r) {
      assert StillHolds(p, s, made, PlannedUnavailable(issues), DeleteOrphan(r));
    }
  }

  lemma AppliedIsHarmless(p: Params, s: Store, plan: Id)
    requires plan in s.plans && !s.plans[plan].applied
    requires Accepted(p, s, s.plans[plan].createdAt, s.plans[plan].issues)
    ensures Harmless(p, s, s.plans[plan].createdAt, Apply(p, s, plan).0)
  {
    var made, issues := s.plans[plan].createdAt, s.plans[plan].issues;
    OrphansTouch(s, issues);
    var (x, ok) := DeleteOrphans(s, issues);
    OrphansAloneAreHarmless(p, s, made, issues, x);
    if ok {
      RowsTouch(x, issues);
      TouchedIsHarmless(p, s, made, issues, x, ApplyRows(x, issues), UnlinkStaging(ApplyRows(x, issues), issues));
    }
  }

  /** Whatever plan is applied, in whatever state and however it ends, it does no harm. */
  lemma NoPlanHarms(p: Params, s: Store, plan: Id)
    requires plan in s.plans
    ensures Harmless(p, s, s.plans[plan].createdAt, Apply(p, s, plan).0)
  {
    if !s.plans[plan].applied && Accepted(p, s, s.plans[plan].createdAt, s.plans[plan].issues) {
      AppliedIsHarmless(p, s, plan);
    }
  }

  /* ---------- answers ---------- */

  /** The plan's own marks make the artifact unavailable, or it has no available row. */
  predicate Doubtful(s: Store, issues: seq<Issue>, a: Id) {
    (exists i :: i in issues && Marks(i, a)) || a !in s.artifacts || s.artifacts[a].lifecycle != Available
  }

  lemma {:induction false} MarksArePlanned(issues: seq<Issue>, a: Id)
    requires exists i :: i in issues && Marks(i, a)
    ensures a in PlannedUnavailable(issues)
  {
    var i :| i in issues && Marks(i, a);
    if i != issues[0] {
      assert i in issues[1..];
      MarksArePlanned(issues[1..], a);
    }
  }

  lemma DoubtfulExactly(s: Store, issues: seq<Issue>, a: Id)
    ensures BadTarget(s, PlannedUnavailable(issues), a) <==> Doubtful(s, issues, a)
  {
    PlannedBelong(issues);
    if exists i :: i in issues && Marks(i, a) { MarksArePlanned(issues, a); }
  }

  /** An issue of a plan still holds exactly when its row is still without this body, or with a different one; the
      orphan is still unnamed; the reference or collection is gone, or names something doubtful; the upload is stale
      for the plan's own time. */
  lemma StillHoldsExactly(p: Params, s: Store, made: int, issues: seq<Issue>, i: Issue)
    ensures StillHolds(p, s, made, PlannedUnavailable(issues), i) <==>
            match i
            case MarkMissing(a, ref) => a in s.artifacts && s.artifacts[a].ref == ref && ref !in s.bodies
            case MarkCorrupt(a, ref) =>
              a in s.artifacts && s.artifacts[a].ref == ref && ref in s.bodies && !Intact(p, s, a)
            case DeleteOrphan(ref) => !Named(s, ref)
            case DeleteReference(k) => k in s.references ==> Doubtful(s, issues, s.references[k].artifactId)
            case DeleteCollection(c) =>
              c in s.collections ==> exists n :: n in s.collections[c] && Doubtful(s, issues, s.collections[c][n])
            case AbortExpired(u) => Stale(p, s, made, u)
  {
    match i
    case DeleteReference(k) => if k in s.references { DoubtfulExactly(s, issues, s.references[k].artifactId); }
    case DeleteCollection(c) =>
      if c in s.collections {
        forall n | n in s.collections[c]
          ensures BadTarget(s, PlannedUnavailable(issues), s.collections[c][n])
                  <==> Doubtful(s, issues, s.collections[c][n])
        {
          DoubtfulExactly(s, issues, s.collections[c][n]);
        }
      }
    case _ =>
  }

  /** The plan orders the deletion of no unclaimed body whose name the body store refuses. */
  predicate Deletable(s: Store, issues: seq<Issue>) {
    forall i :: i in issues ==> DeletableOne(s, i)
  }

  predicate DeletableOne(s: Store, i: Issue) { i.DeleteOrphan? && NoLive(s, i.ref) ==> ValidRef(i.ref) }

  lemma OneEnds(s: Store, i: Issue)
    ensures DeleteOne(s, i).1 <==> DeletableOne(s, i)
    ensures DeleteOne(s, i).0.artifacts == s.artifacts
  {}

  lemma SameRowsSameIssues(s: Store, x: Store, issues: seq<Issue>)
    requires x.artifacts == s.artifacts
    ensures Deletable(x, issues) <==> Deletable(s, issues)
  {
    forall i | i in issues && i.DeleteOrphan? ensures NoLive(x, i.ref) <==> NoLive(s, i.ref) {}
  }

  lemma {:induction false} OrphansEnd(s: Store, issues: seq<Issue>)
    ensures DeleteOrphans(s, issues).1 <==> Deletable(s, issues)
    decreases |issues|
  {
    if issues != [] {
      OneEnds(s, issues[0]);
      var next := DeleteOne(s, issues[0]).0;
      assert issues == [issues[0]] + issues[1..];
      if DeletableOne(s, issues[0]) {
        OrphansEnd(next, issues[1..]);
        SameRowsSameIssues(s, next, issues[1..]);
      }
    }
  }

  lemma PlanStays(s: Store, issues: seq<Issue>)
    ensures DeleteOrphans(s, issues).0.plans == s.plans
    ensures ApplyRows(DeleteOrphans(s, issues).0, issues).plans == s.plans
  {
    OrphansTouch(s, issues);
    RowsTouch(DeleteOrphans(s, issues).0, issues);
  }

  /** An unknown plan is refused and one that was applied is answered, both without effect. Any other is refused as
      out of date, without effect, if an issue of it no longer holds; and as an artifact error if it orders the
      deletion of an unclaimed body whose name the body store refuses. Else it is applied. */
  lemma AnsweredExactly(p: Params, s: Store, plan: Id)
    ensures var (s', r) := Apply(p, s, plan);
            && (plan !in s.plans ==> s' == s && r == Refused(ArtifactError))
            && (plan in s.plans && s.plans[plan].applied ==> s' == s && r == Ok(()))
            && (plan in s.plans && !s.plans[plan].applied ==>
                  var holds := Accepted(p, s, s.plans[plan].createdAt, s.plans[plan].issues);
                  && (!holds ==> s' == s && r == Refused(RevisionMismatch))
                  && (holds && !Deletable(s, s.plans[plan].issues) ==> r == Refused(ArtifactError))
                  && (holds && Deletable(s, s.plans[plan].issues) ==>
                        r == Ok(()) && plan in s'.plans && s'.plans[plan] == s.plans[plan].(applied := true)))
  {
    if plan in s.plans && !s.plans[plan].applied {
      OrphansEnd(s, s.plans[plan].issues);
      PlanStays(s, s.plans[plan].issues);
    }
  }
}
