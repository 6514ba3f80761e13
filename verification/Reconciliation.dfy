/** Two-phase reconciliation of rows against bodies: what a plan contains, what its validator
    accepts, what applying it does, and what a crash in the middle leaves for the next run. */
module Reconciliation {
  import opened Outcomes
  import opened ArtifactRoots
  import opened ArtifactStore

  /* ---------- diagnosis ---------- */

  /** What the blob glob lists: every file two levels below `sha256`, hidden files included. */
  predicate Listed(ref: string) {
    && |ref| > 10
    && ref[..7] == "sha256/"
    && IsHex(ref[7]) && IsHex(ref[8])
    && ref[9] == '/'
    && '/' !in ref[10..]
  }

  predicate Inspected(row: ArtifactRow) {
    row.lifecycle in {Available, Validating, Quarantined}
  }

  /** A row that still claims its storage reference. */
  predicate Claims(row: ArtifactRow) {
    row.lifecycle !in {Tombstoned, Deleted}
  }

  predicate BodyMissing(s: Store, a: Id) {
    a in s.artifacts && Inspected(s.artifacts[a]) && s.artifacts[a].ref !in s.bodies
  }

  predicate BodyCorrupt(p: Params, s: Store, a: Id) {
    && a in s.artifacts && Inspected(s.artifacts[a])
    && s.artifacts[a].ref in s.bodies
    && !Matches(p, s.bodies[s.artifacts[a].ref], s.artifacts[a].digest, s.artifacts[a].size)
  }

  predicate Unclaimed(s: Store, ref: string) {
    forall a :: a in s.artifacts && s.artifacts[a].ref == ref ==> !Claims(s.artifacts[a])
  }

  /** The target of a reference or collection entry cannot be used. */
  predicate BadTarget(s: Store, unavailable: set<Id>, a: Id) {
    a !in s.artifacts || a in unavailable || s.artifacts[a].lifecycle != Available
  }

  predicate Incomplete(s: Store, unavailable: set<Id>, entries: map<string, Id>) {
    exists n :: n in entries && BadTarget(s, unavailable, entries[n])
  }

  predicate ExpiredAt(p: Params, row: UploadRow, now: int) {
    p.stagingTtl.Some? && row.state in {UploadStaging, UploadAborted} && row.updatedAt < now - p.stagingTtl.value
  }

  function Unavailable(p: Params, s: Store): set<Id> {
    set a | a in s.artifacts && (BodyMissing(s, a) || BodyCorrupt(p, s, a))
  }

  /** The issues of a plan made at `now`. */
  predicate Diagnosed(p: Params, s: Store, now: int, i: Issue) {
    match i
    case MarkMissing(a, ref) => BodyMissing(s, a) && ref == s.artifacts[a].ref
    case MarkCorrupt(a, ref) => BodyCorrupt(p, s, a) && ref == s.artifacts[a].ref
    case DeleteOrphan(ref) => Listed(ref) && ref in s.bodies && Unclaimed(s, ref)
    case DeleteReference(k) => k in s.references && BadTarget(s, Unavailable(p, s), s.references[k].artifactId)
    case DeleteCollection(c) => c in s.collections && Incomplete(s, Unavailable(p, s), s.collections[c])
    case AbortExpired(u) => u in s.uploads && ExpiredAt(p, s.uploads[u], now)
  }

  /** `issues` lists the diagnosed issues, in whatever order the sort key gives. */
  ghost predicate IsPlan(p: Params, s: Store, now: int, issues: seq<Issue>) {
    forall i :: i in issues <==> Diagnosed(p, s, now, i)
  }

  /* ---------- validation ---------- */

  /** What a plan touches, as sets. */
  datatype Effects = Effects(
    missing: set<Id>, corrupt: set<Id>, orphans: set<string>,
    keys: set<ReferenceKey>, collections: set<Id>, expired: set<Id>)

  function AddEffect(e: Effects, i: Issue): Effects {
    match i
    case MarkMissing(a, _) => e.(missing := e.missing + {a})
    case MarkCorrupt(a, _) => e.(corrupt := e.corrupt + {a})
    case DeleteOrphan(r) => e.(orphans := e.orphans + {r})
    case DeleteReference(k) => e.(keys := e.keys + {k})
    case DeleteCollection(c) => e.(collections := e.collections + {c})
    case AbortExpired(u) => e.(expired := e.expired + {u})
  }

  function EffectsOf(issues: seq<Issue>): Effects {
    if issues == [] then Effects({}, {}, {}, {}, {}, {}) else AddEffect(EffectsOf(issues[1..]), issues[0])
  }

  function PlannedUnavailable(issues: seq<Issue>): set<Id> {
    EffectsOf(issues).missing + EffectsOf(issues).corrupt
  }

  /** One issue as the validator re-checks it; `made` is the plan's creation time. */
  predicate StillHolds(p: Params, s: Store, made: int, planned: set<Id>, i: Issue) {
    match i
    case MarkMissing(a, ref) => a in s.artifacts && s.artifacts[a].ref == ref && ref !in s.bodies
    case MarkCorrupt(a, ref) =>
      && a in s.artifacts && s.artifacts[a].ref == ref && ref in s.bodies
      && !Matches(p, s.bodies[ref], s.artifacts[a].digest, s.artifacts[a].size)
    case DeleteOrphan(ref) => Unclaimed(s, ref)
    case DeleteReference(k) => k in s.references ==> BadTarget(s, planned, s.references[k].artifactId)
    case DeleteCollection(c) => c in s.collections ==> Incomplete(s, planned, s.collections[c])
    case AbortExpired(u) => u in s.uploads && ExpiredAt(p, s.uploads[u], made)
  }

  predicate Accepted(p: Params, s: Store, made: int, issues: seq<Issue>) {
    forall i :: i in issues ==> StillHolds(p, s, made, PlannedUnavailable(issues), i)
  }

  /* ---------- application ---------- */

  /** One orphan deletion under its lock; the body store refuses a malformed reference. */
  function DeleteOne(s: Store, i: Issue): (Store, bool) {
    if !i.DeleteOrphan? || !NoLive(s, i.ref) then (s, true)
    else if !ValidRef(i.ref) then (s, false)
    else (DeleteBody(s, i.ref), true)
  }

  /** The orphan loop, stopped by the first refusal. */
  function DeleteOrphans(s: Store, issues: seq<Issue>): (Store, bool)
    decreases |issues|
  {
    if issues == [] then (s, true)
    else
      var (s', ok) := DeleteOne(s, issues[0]);
      if ok then DeleteOrphans(s', issues[1..]) else (s', false)
  }

  function ApplyRow(s: Store, i: Issue): Store {
    match i
    case MarkMissing(a, _) => SetAll(s, {a}, Missing)
    case MarkCorrupt(a, _) => SetAll(s, {a}, Corrupt)
    case DeleteReference(k) => s.(references := s.references - {k})
    case DeleteCollection(c) => s.(collections := s.collections - {c})
    case AbortExpired(u) =>
      if u in s.uploads then s.(uploads := s.uploads[u := s.uploads[u].(state := UploadAborted)]) else s
    case DeleteOrphan(_) => s
  }

  /** The row transaction. */
  function ApplyRows(s: Store, issues: seq<Issue>): Store
    decreases |issues|
  {
    if issues == [] then s else ApplyRows(ApplyRow(s, issues[0]), issues[1..])
  }

  function UnlinkStaging(s: Store, issues: seq<Issue>): Store {
    s.(staging := s.staging - EffectsOf(issues).expired)
  }

  function MarkApplied(s: Store, plan: Id): Store
    requires plan in s.plans
  {
    s.(plans := s.plans[plan := s.plans[plan].(applied := true)])
  }

  /** `apply_reconciliation` with nothing else running: the state it leaves and whether it
      succeeded. */
  function Apply(p: Params, s: Store, plan: Id): (Store, Result<()>) {
    if plan !in s.plans then (s, Refused(ArtifactError))
    else if s.plans[plan].applied then (s, Ok(()))
    else
      var issues := s.plans[plan].issues;
      if !Accepted(p, s, s.plans[plan].createdAt, issues) then (s, Refused(RevisionMismatch))
      else
        var (s1, ok) := DeleteOrphans(s, issues);
        if !ok || plan !in s1.plans then (s1, Refused(ArtifactError))
        else
          var s3 := UnlinkStaging(ApplyRows(s1, issues), issues);
          if plan !in s3.plans then (s3, Refused(ArtifactError)) else (MarkApplied(s3, plan), Ok(()))
  }

  /* ---------- the effect of a whole plan, whatever its order ---------- */

  function Marked(rows: map<Id, ArtifactRow>, missing: set<Id>, corrupt: set<Id>): map<Id, ArtifactRow> {
    map a | a in rows ::
      if a in missing then SetLifecycle(rows[a], Missing)
      else if a in corrupt then SetLifecycle(rows[a], Corrupt)
      else rows[a]
  }

  function Aborted(rows: map<Id, UploadRow>, expired: set<Id>): map<Id, UploadRow> {
    map u | u in rows :: if u in expired then rows[u].(state := UploadAborted) else rows[u]
  }

  function Rows(s: Store, e: Effects): Store {
    s.(artifacts := Marked(s.artifacts, e.missing, e.corrupt),
       references := s.references - e.keys,
       collections := s.collections - e.collections,
       uploads := Aborted(s.uploads, e.expired))
  }

  lemma MarkedStep(rows: map<Id, ArtifactRow>, a: Id, missing: set<Id>, corrupt: set<Id>)
    ensures a !in corrupt ==>
              Marked(SetRows(rows, {a}, Missing), missing, corrupt) == Marked(rows, missing + {a}, corrupt)
    ensures a !in missing ==>
              Marked(SetRows(rows, {a}, Corrupt), missing, corrupt) == Marked(rows, missing, corrupt + {a})
  {
    if a !in corrupt {
      var left, right := Marked(SetRows(rows, {a}, Missing), missing, corrupt), Marked(rows, missing + {a}, corrupt);
      assert forall x :: x in rows ==> left[x] == right[x];
    }
    if a !in missing {
      var left, right := Marked(SetRows(rows, {a}, Corrupt), missing, corrupt), Marked(rows, missing, corrupt + {a});
      assert forall x :: x in rows ==> left[x] == right[x];
    }
  }

  lemma AbortedStep(rows: map<Id, UploadRow>, u: Id, expired: set<Id>)
    ensures u in rows ==> Aborted(rows[u := rows[u].(state := UploadAborted)], expired) == Aborted(rows, expired + {u})
    ensures u !in rows ==> Aborted(rows, expired) == Aborted(rows, expired + {u})
  {}

  lemma DroppedStep<K, V>(m: map<K, V>, k: K, drop: set<K>)
    ensures m - {k} - drop == m - (drop + {k})
  {}

  lemma RowsStep(s: Store, i: Issue, e: Effects)
    requires AddEffect(e, i).missing !! AddEffect(e, i).corrupt
    ensures Rows(ApplyRow(s, i), e) == Rows(s, AddEffect(e, i))
  {
    match i
    case MarkMissing(a, _) =>
      assert a in AddEffect(e, i).missing;
      MarkedStep(s.artifacts, a, e.missing, e.corrupt);
    case MarkCorrupt(a, _) =>
      assert a in AddEffect(e, i).corrupt;
      MarkedStep(s.artifacts, a, e.missing, e.corrupt);
    case DeleteReference(k) => DroppedStep(s.references, k, e.keys);
    case DeleteCollection(c) => DroppedStep(s.collections, c, e.collections);
    case AbortExpired(u) => AbortedStep(s.uploads, u, e.expired);
    case DeleteOrphan(_) =>
  }

  /** The row transaction has one effect whatever the order of its issues. */
  lemma {:induction false} RowsOfPlan(s: Store, issues: seq<Issue>)
    requires EffectsOf(issues).missing !! EffectsOf(issues).corrupt
    ensures ApplyRows(s, issues) == Rows(s, EffectsOf(issues))
    decreases |issues|
  {
    if issues == [] {
      assert Marked(s.artifacts, {}, {}) == s.artifacts;
      assert Aborted(s.uploads, {}) == s.uploads;
    } else {
      RowsOfPlan(ApplyRow(s, issues[0]), issues[1..]);
      RowsStep(s, issues[0], EffectsOf(issues[1..]));
    }
  }

  predicate AllUnclaimed(s: Store, refs: set<string>) { forall r :: r in refs ==> Unclaimed(s, r) }
  predicate AllValid(refs: set<string>) { forall r :: r in refs ==> ValidRef(r) }

  lemma UnclaimedHasNoLive(s: Store, ref: string)
    requires Unclaimed(s, ref)
    ensures NoLive(s, ref)
  {}

  lemma DropTwice<K(!new), V(!new)>(m: map<K, V>, k: K, rest: set<K>)
    ensures m - {k} - rest == m - (rest + {k})
  {}

  /** Deleting a body unclaims nothing and claims nothing. */
  lemma UnclaimedStays(s: Store, ref: string, refs: set<string>)
    ensures AllUnclaimed(DeleteBody(s, ref), refs) <==> AllUnclaimed(s, refs)
  {
    forall r ensures Unclaimed(DeleteBody(s, ref), r) <==> Unclaimed(s, r) {}
  }

  lemma OrphansUnfold(s: Store, issues: seq<Issue>)
    requires issues != [] && issues[0].DeleteOrphan? && AllUnclaimed(s, EffectsOf(issues).orphans)
    ensures EffectsOf(issues).orphans == EffectsOf(issues[1..]).orphans + {issues[0].ref}
    ensures AllUnclaimed(s, EffectsOf(issues[1..]).orphans)
    ensures DeleteOrphans(s, issues)
              == if ValidRef(issues[0].ref) then DeleteOrphans(DeleteBody(s, issues[0].ref), issues[1..])
                else (s, false)
  {
    UnclaimedHasNoLive(s, issues[0].ref);
  }

  lemma EmptyDrop<K(!new), V(!new)>(m: map<K, V>)
    ensures m - {} == m
  {}

  /** The orphan loop succeeds on unclaimed references exactly when all of them are well
      formed, and then deletes exactly those. */
  lemma {:induction false} OrphansOfPlan(s: Store, issues: seq<Issue>)
    requires AllUnclaimed(s, EffectsOf(issues).orphans)
    ensures DeleteOrphans(s, issues).1 <==> AllValid(EffectsOf(issues).orphans)
    ensures DeleteOrphans(s, issues).1 ==>
            DeleteOrphans(s, issues).0 == s.(bodies := s.bodies - EffectsOf(issues).orphans)
    decreases |issues|
  {
    if issues == [] {
      EmptyDrop(s.bodies);
    } else {
      var i, rest := issues[0], EffectsOf(issues[1..]).orphans;
      if i.DeleteOrphan? {
        OrphansUnfold(s, issues);
        if ValidRef(i.ref) {
          UnclaimedStays(s, i.ref, rest);
          OrphansOfPlan(DeleteBody(s, i.ref), issues[1..]);
          DropTwice(s.bodies, i.ref, rest);
        }
      } else {
        OrphansOfPlan(s, issues[1..]);
      }
    }
  }

  /* ---------- a plan and the sets it touches ---------- */

  predicate Covers(e: Effects, i: Issue) {
    match i
    case MarkMissing(a, _) => a in e.missing
    case MarkCorrupt(a, _) => a in e.corrupt
    case DeleteOrphan(r) => r in e.orphans
    case DeleteReference(k) => k in e.keys
    case DeleteCollection(c) => c in e.collections
    case AbortExpired(u) => u in e.expired
  }

  predicate Within(e: Effects, f: Effects) {
    && e.missing <= f.missing && e.corrupt <= f.corrupt && e.orphans <= f.orphans
    && e.keys <= f.keys && e.collections <= f.collections && e.expired <= f.expired
  }

  lemma {:induction false} EffectsCover(issues: seq<Issue>, i: Issue)
    requires i in issues
    ensures Covers(EffectsOf(issues), i)
  {
    if i != issues[0] {
      assert i in issues[1..];
      EffectsCover(issues[1..], i);
    }
  }

  lemma {:induction false} EffectsWithin(issues: seq<Issue>, f: Effects)
    requires forall i :: i in issues ==> Covers(f, i)
    ensures Within(EffectsOf(issues), f)
  {
    if issues != [] {
      assert issues[0] in issues;
      assert forall i :: i in issues[1..] ==> i in issues;
      EffectsWithin(issues[1..], f);
    }
  }

  function Diagnosis(p: Params, s: Store, now: int): Effects {
    Effects(
      set a | a in s.artifacts && BodyMissing(s, a),
      set a | a in s.artifacts && BodyCorrupt(p, s, a),
      set r | r in s.bodies && Listed(r) && Unclaimed(s, r),
      set k | k in s.references && BadTarget(s, Unavailable(p, s), s.references[k].artifactId),
      set c | c in s.collections && Incomplete(s, Unavailable(p, s), s.collections[c]),
      set u | u in s.uploads && ExpiredAt(p, s.uploads[u], now))
  }

  lemma DiagnosedIsCovered(p: Params, s: Store, now: int, i: Issue)
    requires Diagnosed(p, s, now, i)
    ensures Covers(Diagnosis(p, s, now), i)
  {}

  /** A plan touches exactly what is diagnosed, in whatever order it lists it. */
  lemma PlanEffects(p: Params, s: Store, now: int, issues: seq<Issue>)
    requires IsPlan(p, s, now, issues)
    ensures EffectsOf(issues) == Diagnosis(p, s, now)
  {
    var d, e := Diagnosis(p, s, now), EffectsOf(issues);
    forall i | i in issues ensures Covers(d, i) { DiagnosedIsCovered(p, s, now, i); }
    EffectsWithin(issues, d);
    forall a | a in d.missing ensures a in e.missing { EffectsCover(issues, MarkMissing(a, s.artifacts[a].ref)); }
    forall a | a in d.corrupt ensures a in e.corrupt { EffectsCover(issues, MarkCorrupt(a, s.artifacts[a].ref)); }
    forall r | r in d.orphans ensures r in e.orphans { EffectsCover(issues, DeleteOrphan(r)); }
    forall k | k in d.keys ensures k in e.keys { EffectsCover(issues, DeleteReference(k)); }
    forall c | c in d.collections ensures c in e.collections { EffectsCover(issues, DeleteCollection(c)); }
    forall u | u in d.expired ensures u in e.expired { EffectsCover(issues, AbortExpired(u)); }
  }
}
