/** A reconciliation that is interrupted and run again: validation passes a second time, and
    the second run ends where an uninterrupted one does. */
module ReconciliationReplay {
  import opened ArtifactRoots
  import opened ArtifactStore
  import opened Reconciliation

  /** `m` with some of the keys in `may` gone, and nothing else changed. */
  ghost predicate Shrunk<K(!new), V(!new)>(m: map<K, V>, m': map<K, V>, may: set<K>) {
    && (forall k :: k in m' ==> k in m && m'[k] == m[k])
    && forall k :: k in m && k !in may ==> k in m'
  }

  lemma ShrunkThenDropped<K(!new), V(!new)>(m: map<K, V>, m': map<K, V>, may: set<K>)
    requires Shrunk(m, m', may)
    ensures m' - may == m - may
  {}

  /** Some of a plan has been applied: any of the orphans, all rows or none, any staged file. */
  ghost predicate Partial(s: Store, x: Store, e: Effects) {
    && (x.(bodies := s.bodies, staging := s.staging) == s || x.(bodies := s.bodies, staging := s.staging) == Rows(s, e))
    && Shrunk(s.bodies, x.bodies, e.orphans)
    && Shrunk(s.staging, x.staging, e.expired)
  }

  function Finished(s: Store, e: Effects): Store {
    Rows(s, e).(bodies := s.bodies - e.orphans, staging := s.staging - e.expired)
  }

  lemma MarkedAgain(rows: map<Id, ArtifactRow>, missing: set<Id>, corrupt: set<Id>)
    requires missing !! corrupt
    ensures Marked(Marked(rows, missing, corrupt), missing, corrupt) == Marked(rows, missing, corrupt)
  {
    var once := Marked(rows, missing, corrupt);
    forall a | a in rows ensures Marked(once, missing, corrupt)[a] == once[a] {}
  }

  lemma RowsAgain(s: Store, e: Effects)
    requires e.missing !! e.corrupt
    ensures Rows(Rows(s, e), e) == Rows(s, e)
  {
    MarkedAgain(s.artifacts, e.missing, e.corrupt);
    assert s.references - e.keys - e.keys == s.references - e.keys;
    assert s.collections - e.collections - e.collections == s.collections - e.collections;
    assert Aborted(Aborted(s.uploads, e.expired), e.expired) == Aborted(s.uploads, e.expired);
  }

  /** In a partly applied state every row keeps its identity, and it claims its body, or is
      available, only if it did before. */
  lemma PartialRow(p: Params, s: Store, now: int, x: Store, a: Id)
    requires Partial(s, x, Diagnosis(p, s, now))
    ensures a in x.artifacts <==> a in s.artifacts
    ensures a in s.artifacts ==>
              && x.artifacts[a].ref == s.artifacts[a].ref
              && x.artifacts[a].digest == s.artifacts[a].digest
              && x.artifacts[a].size == s.artifacts[a].size
              && (Claims(x.artifacts[a]) <==> Claims(s.artifacts[a]))
              && (x.artifacts[a].lifecycle == Available ==> s.artifacts[a].lifecycle == Available)
  {
    assert x.artifacts == s.artifacts || x.artifacts == Rows(s, Diagnosis(p, s, now)).artifacts;
  }

  lemma PartialUnclaimed(p: Params, s: Store, now: int, x: Store, ref: string)
    requires Partial(s, x, Diagnosis(p, s, now))
    ensures Unclaimed(x, ref) <==> Unclaimed(s, ref)
  {
    forall a ensures a in x.artifacts <==> a in s.artifacts { PartialRow(p, s, now, x, a); }
    forall a | a in s.artifacts
      ensures x.artifacts[a].ref == s.artifacts[a].ref && (Claims(x.artifacts[a]) <==> Claims(s.artifacts[a]))
    {
      PartialRow(p, s, now, x, a);
    }
  }

  lemma PartialBadTarget(p: Params, s: Store, now: int, x: Store, a: Id)
    requires Partial(s, x, Diagnosis(p, s, now))
    requires BadTarget(s, Unavailable(p, s), a)
    ensures BadTarget(x, Diagnosis(p, s, now).missing + Diagnosis(p, s, now).corrupt, a)
  {
    PartialRow(p, s, now, x, a);
  }

  /** Every planned issue passes its re-check in every partly applied state. */
  lemma IssueSurvives(p: Params, s: Store, now: int, x: Store, i: Issue)
    requires Partial(s, x, Diagnosis(p, s, now))
    requires Diagnosed(p, s, now, i)
    ensures StillHolds(p, x, now, Diagnosis(p, s, now).missing + Diagnosis(p, s, now).corrupt, i)
  {
    match i
    case MarkMissing(a, ref) => PartialRow(p, s, now, x, a);
    case MarkCorrupt(a, ref) =>
      PartialRow(p, s, now, x, a);
      assert Claims(s.artifacts[a]);
      assert !Unclaimed(s, ref);
    case DeleteOrphan(ref) => PartialUnclaimed(p, s, now, x, ref);
    case DeleteReference(k) =>
      PartialBadTarget(p, s, now, x, s.references[k].artifactId);
      assert x.references == s.references || x.references == Rows(s, Diagnosis(p, s, now)).references;
    case DeleteCollection(c) =>
      var n :| n in s.collections[c] && BadTarget(s, Unavailable(p, s), s.collections[c][n]);
      PartialBadTarget(p, s, now, x, s.collections[c][n]);
      assert x.collections == s.collections || x.collections == Rows(s, Diagnosis(p, s, now)).collections;
    case AbortExpired(u) =>
      assert x.uploads == s.uploads || x.uploads == Rows(s, Diagnosis(p, s, now)).uploads;
  }

  /** A plan recorded in the state it diagnoses. */
  ghost predicate Planned(p: Params, s: Store, plan: Id) {
    && plan in s.plans && !s.plans[plan].applied
    && IsPlan(p, s, s.plans[plan].createdAt, s.plans[plan].issues)
  }

  function PlanDiagnosis(p: Params, s: Store, plan: Id): Effects
    requires plan in s.plans
  {
    Diagnosis(p, s, s.plans[plan].createdAt)
  }

  lemma ValidatorAccepts(p: Params, s: Store, plan: Id, x: Store)
    requires Planned(p, s, plan)
    requires Partial(s, x, PlanDiagnosis(p, s, plan))
    ensures x.plans == s.plans
    ensures Accepted(p, x, s.plans[plan].createdAt, s.plans[plan].issues)
  {
    var made, issues := s.plans[plan].createdAt, s.plans[plan].issues;
    PlanEffects(p, s, made, issues);
    forall i | i in issues
      ensures StillHolds(p, x, made, PlannedUnavailable(issues), i)
    {
      IssueSurvives(p, s, made, x, i);
    }
  }

  lemma DiagnosisDisjoint(p: Params, s: Store, now: int)
    ensures Diagnosis(p, s, now).missing !! Diagnosis(p, s, now).corrupt
    ensures AllUnclaimed(s, Diagnosis(p, s, now).orphans)
  {}

  /** From any partly applied state, applying the plan succeeds exactly when every orphan has a
      well-formed name, and then ends in the state of the uninterrupted run. */
  lemma ResumeEndsTheSame(p: Params, s: Store, plan: Id, x: Store)
    requires Planned(p, s, plan)
    requires Partial(s, x, PlanDiagnosis(p, s, plan))
    ensures Apply(p, x, plan).1.Ok? <==> AllValid(PlanDiagnosis(p, s, plan).orphans)
    ensures Apply(p, x, plan).1.Ok? ==> Apply(p, x, plan).0 == MarkApplied(Finished(s, PlanDiagnosis(p, s, plan)), plan)
  {
    var made, issues, e := s.plans[plan].createdAt, s.plans[plan].issues, PlanDiagnosis(p, s, plan);
    PlanEffects(p, s, made, issues);
    ValidatorAccepts(p, s, plan, x);
    DiagnosisDisjoint(p, s, made);
    forall r | r in e.orphans ensures Unclaimed(x, r) { PartialUnclaimed(p, s, made, x, r); }
    OrphansOfPlan(x, issues);
    if AllValid(e.orphans) {
      LastPhases(s, x, e, issues);
    }
  }

  lemma LastPhases(s: Store, x: Store, e: Effects, issues: seq<Issue>)
    requires Partial(s, x, e) && e == EffectsOf(issues) && e.missing !! e.corrupt
    ensures UnlinkStaging(ApplyRows(x.(bodies := x.bodies - e.orphans), issues), issues) == Finished(s, e)
  {
    ShrunkThenDropped(s.bodies, x.bodies, e.orphans);
    ShrunkThenDropped(s.staging, x.staging, e.expired);
    RowsOfPlan(x.(bodies := x.bodies - e.orphans), issues);
    RowsAgain(s, e);
    RowsFramed(s, x, e);
  }

  lemma RowsFramed(s: Store, x: Store, e: Effects)
    requires Rows(Rows(s, e), e) == Rows(s, e)
    requires x.(bodies := s.bodies, staging := s.staging) == s
             || x.(bodies := s.bodies, staging := s.staging) == Rows(s, e)
    ensures Rows(x, e).(bodies := s.bodies, staging := s.staging) == Rows(s, e)
  {
    assert Rows(x, e).(bodies := s.bodies, staging := s.staging)
           == Rows(x.(bodies := s.bodies, staging := s.staging), e);
  }

  /* ---------- crashes ---------- */

  /** Where a run can stop: inside the orphan loop, or after the row transaction with some
      staged files unlinked and the plan not yet marked applied. */
  datatype CrashPoint = DuringOrphans(done: nat) | DuringUnlinks(done: nat)

  function Prefix(issues: seq<Issue>, n: nat): seq<Issue> {
    if n <= |issues| then issues[..n] else issues
  }

  function CrashState(s: Store, issues: seq<Issue>, c: CrashPoint): Store {
    match c
    case DuringOrphans(n) => DeleteOrphans(s, Prefix(issues, n)).0
    case DuringUnlinks(n) =>
      var (s1, ok) := DeleteOrphans(s, issues);
      if ok then UnlinkStaging(ApplyRows(s1, issues), Prefix(issues, n)) else s1
  }

  function CrashStates(s: Store, issues: seq<Issue>, cs: seq<CrashPoint>): Store
    decreases |cs|
  {
    if cs == [] then s else CrashStates(CrashState(s, issues, cs[0]), issues, cs[1..])
  }

  /** The orphan loop only ever removes bodies that the plan names. */
  lemma {:induction false} OrphanLoopShrinks(s: Store, issues: seq<Issue>, may: set<string>)
    requires EffectsOf(issues).orphans <= may
    ensures DeleteOrphans(s, issues).0 == s.(bodies := DeleteOrphans(s, issues).0.bodies)
    ensures Shrunk(s.bodies, DeleteOrphans(s, issues).0.bodies, may)
    decreases |issues|
  {
    if issues != [] {
      var s', rest := DeleteOne(s, issues[0]).0, DeleteOrphans(DeleteOne(s, issues[0]).0, issues[1..]).0;
      DeleteOneShrinks(s, issues[0], may);
      if DeleteOne(s, issues[0]).1 {
        OrphanLoopShrinks(s', issues[1..], may);
        ShrunkTwice(s.bodies, s'.bodies, rest.bodies, may);
      }
    }
  }

  lemma DeleteOneShrinks(s: Store, i: Issue, may: set<string>)
    requires i.DeleteOrphan? ==> i.ref in may
    ensures DeleteOne(s, i).0 == s.(bodies := DeleteOne(s, i).0.bodies)
    ensures Shrunk(s.bodies, DeleteOne(s, i).0.bodies, may)
  {
    if i.DeleteOrphan? {
      DropShrinks(s.bodies, i.ref, may);
      assert DeleteOne(s, i).0 == s || DeleteOne(s, i).0 == DeleteBody(s, i.ref);
    }
  }

  lemma DropShrinks<K(!new), V(!new)>(m: map<K, V>, k: K, may: set<K>)
    ensures k in may ==> Shrunk(m, m - {k}, may)
    ensures Shrunk(m, m, may)
  {}

  lemma ShrunkTwice<K(!new), V(!new)>(m: map<K, V>, m': map<K, V>, m'': map<K, V>, may: set<K>)
    requires Shrunk(m, m', may) && Shrunk(m', m'', may)
    ensures Shrunk(m, m'', may)
  {}

  lemma PrefixWithin(issues: seq<Issue>, n: nat)
    ensures Within(EffectsOf(Prefix(issues, n)), EffectsOf(issues))
  {
    forall i | i in Prefix(issues, n) ensures Covers(EffectsOf(issues), i) { EffectsCover(issues, i); }
    EffectsWithin(Prefix(issues, n), EffectsOf(issues));
  }

  lemma OrphansArePartial(s: Store, x: Store, e: Effects, issues: seq<Issue>)
    requires Partial(s, x, e) && EffectsOf(issues).orphans <= e.orphans
    ensures Partial(s, DeleteOrphans(x, issues).0, e)
  {
    OrphanLoopShrinks(x, issues, e.orphans);
    ShrunkTwice(s.bodies, x.bodies, DeleteOrphans(x, issues).0.bodies, e.orphans);
  }

  lemma RowsArePartial(s: Store, x: Store, e: Effects)
    requires Partial(s, x, e) && e.missing !! e.corrupt
    ensures Partial(s, Rows(x, e), e)
  {
    RowsAgain(s, e);
    RowsFramed(s, x, e);
  }

  lemma UnlinksArePartial(s: Store, x: Store, e: Effects, issues: seq<Issue>)
    requires Partial(s, x, e) && EffectsOf(issues).expired <= e.expired
    ensures Partial(s, UnlinkStaging(x, issues), e)
  {}

  lemma UnlinkCrashIsPartial(s: Store, x: Store, issues: seq<Issue>, n: nat)
    requires Partial(s, x, EffectsOf(issues))
    requires EffectsOf(issues).missing !! EffectsOf(issues).corrupt
    ensures Partial(s, CrashState(x, issues, DuringUnlinks(n)), EffectsOf(issues))
  {
    var e, x1 := EffectsOf(issues), DeleteOrphans(x, issues).0;
    OrphansArePartial(s, x, e, issues);
    RowsArePartial(s, x1, e);
    RowsOfPlan(x1, issues);
    PrefixWithin(issues, n);
    UnlinksArePartial(s, Rows(x1, e), e, Prefix(issues, n));
  }

  /** A crash turns a partly applied state into a partly applied state. */
  lemma CrashIsPartial(s: Store, x: Store, issues: seq<Issue>, c: CrashPoint)
    requires Partial(s, x, EffectsOf(issues))
    requires EffectsOf(issues).missing !! EffectsOf(issues).corrupt
    ensures Partial(s, CrashState(x, issues, c), EffectsOf(issues))
  {
    var e := EffectsOf(issues);
    match c
    case DuringOrphans(n) =>
      PrefixWithin(issues, n);
      OrphanLoopShrinks(x, Prefix(issues, n), e.orphans);
    case DuringUnlinks(n) => UnlinkCrashIsPartial(s, x, issues, n);
  }

  lemma {:induction false} CrashesArePartial(s: Store, x: Store, issues: seq<Issue>, cs: seq<CrashPoint>)
    requires Partial(s, x, EffectsOf(issues))
    requires EffectsOf(issues).missing !! EffectsOf(issues).corrupt
    ensures Partial(s, CrashStates(x, issues, cs), EffectsOf(issues))
    decreases |cs|
  {
    if cs != [] {
      CrashIsPartial(s, x, issues, cs[0]);
      CrashesArePartial(s, CrashState(x, issues, cs[0]), issues, cs[1..]);
    }
  }

  lemma NothingIsPartial(s: Store, e: Effects)
    ensures Partial(s, s, e)
  {
    assert s.(bodies := s.bodies, staging := s.staging) == s;
  }

  /* ---------- main results ---------- */

  /** Every file that the blob listing shows and no row claims has a well-formed name. */
  predicate NoStrays(s: Store) {
    forall r :: r in s.bodies && Listed(r) && Unclaimed(s, r) ==> ValidRef(r)
  }

  /** However often and wherever applying a plan crashes, its validator accepts it again, and
      the next run ends exactly where one uninterrupted run does. */
  lemma CrashIdempotent(p: Params, s: Store, plan: Id, cs: seq<CrashPoint>)
    requires Planned(p, s, plan)
    ensures var x := CrashStates(s, s.plans[plan].issues, cs);
            && Accepted(p, x, s.plans[plan].createdAt, s.plans[plan].issues)
            && (Apply(p, x, plan).1.Ok? <==> NoStrays(s))
            && (NoStrays(s) ==> Apply(p, x, plan) == Apply(p, s, plan))
  {
    var issues := s.plans[plan].issues;
    PlanEffects(p, s, s.plans[plan].createdAt, issues);
    DiagnosisDisjoint(p, s, s.plans[plan].createdAt);
    NothingIsPartial(s, EffectsOf(issues));
    CrashesArePartial(s, s, issues, cs);
    ValidatorAccepts(p, s, plan, CrashStates(s, issues, cs));
    ResumeEndsTheSame(p, s, plan, CrashStates(s, issues, cs));
    ResumeEndsTheSame(p, s, plan, s);
    assert NoStrays(s) <==> AllValid(PlanDiagnosis(p, s, plan).orphans);
  }

  /** A plan applied in the state that it diagnoses is never refused by its validator; it
      completes exactly when no stray file is listed, and then the next diagnosis, at any later
      or earlier time, finds nothing but expired uploads. */
  lemma ReplanFindsOnlyExpired(p: Params, s: Store, plan: Id, now: int, i: Issue)
    requires Planned(p, s, plan)
    ensures Accepted(p, s, s.plans[plan].createdAt, s.plans[plan].issues)
    ensures Apply(p, s, plan).1.Ok? <==> NoStrays(s)
    ensures NoStrays(s) && Diagnosed(p, Apply(p, s, plan).0, now, i) ==> i.AbortExpired?
  {
    CrashIdempotent(p, s, plan, []);
    if NoStrays(s) && Diagnosed(p, Apply(p, s, plan).0, now, i) && !i.AbortExpired? {
      NothingIsPartial(s, PlanDiagnosis(p, s, plan));
      ResumeEndsTheSame(p, s, plan, s);
      FinishedIsClean(p, s, s.plans[plan].createdAt, Apply(p, s, plan).0, now, i);
    }
  }

  lemma FinishedIsClean(p: Params, s: Store, made: int, f: Store, now: int, i: Issue)
    requires f.artifacts == Finished(s, Diagnosis(p, s, made)).artifacts
    requires f.references == Finished(s, Diagnosis(p, s, made)).references
    requires f.collections == Finished(s, Diagnosis(p, s, made)).collections
    requires f.bodies == s.bodies - Diagnosis(p, s, made).orphans
    requires !i.AbortExpired?
    ensures !Diagnosed(p, f, now, i)
  {
    forall a ensures !BodyMissing(f, a) && !BodyCorrupt(p, f, a) { FinishedBodies(p, s, made, f, a); }
    match i
    case MarkMissing(a, _) =>
    case MarkCorrupt(a, _) =>
    case DeleteOrphan(ref) => FinishedUnclaimed(p, s, made, f, ref);
    case DeleteReference(k) => if k in f.references { FinishedTarget(p, s, made, f, s.references[k].artifactId); }
    case DeleteCollection(c) =>
      if c in f.collections {
        forall n | n in s.collections[c] ensures !BadTarget(f, Unavailable(p, f), s.collections[c][n]) {
          FinishedTarget(p, s, made, f, s.collections[c][n]);
        }
      }
  }

  lemma FinishedBodies(p: Params, s: Store, made: int, f: Store, a: Id)
    requires f.artifacts == Finished(s, Diagnosis(p, s, made)).artifacts
    requires f.bodies == s.bodies - Diagnosis(p, s, made).orphans
    ensures !BodyMissing(f, a) && !BodyCorrupt(p, f, a)
  {
    if a in s.artifacts && Inspected(f.artifacts[a]) {
      assert !BodyMissing(s, a) && !BodyCorrupt(p, s, a);
      assert Claims(s.artifacts[a]) && !Unclaimed(s, s.artifacts[a].ref);
    }
  }

  lemma FinishedUnclaimed(p: Params, s: Store, made: int, f: Store, ref: string)
    requires f.artifacts == Finished(s, Diagnosis(p, s, made)).artifacts
    ensures Unclaimed(f, ref) ==> Unclaimed(s, ref)
  {
    forall a | a in s.artifacts && s.artifacts[a].ref == ref && Claims(s.artifacts[a])
      ensures !Unclaimed(f, ref)
    {
      assert f.artifacts[a].ref == ref && Claims(f.artifacts[a]);
    }
  }

  lemma FinishedTarget(p: Params, s: Store, made: int, f: Store, a: Id)
    requires f.artifacts == Finished(s, Diagnosis(p, s, made)).artifacts
    requires forall b :: !BodyMissing(f, b) && !BodyCorrupt(p, f, b)
    requires !BadTarget(s, Unavailable(p, s), a)
    ensures !BadTarget(f, Unavailable(p, f), a)
  {
    assert f.artifacts[a] == s.artifacts[a];
  }
}
