/** The durable side of the artifact service: manifest rows, upload rows, references, roots,
    staged files and content-addressed bodies, with one function per transaction or file
    operation. SHA-256, lock striping and content inspection are parameters. */
module ArtifactStore {
  import opened Outcomes
  import opened ArtifactRoots

  type Bytes = seq<bv8>

  datatype Params = Params(
    digest: Bytes -> string,
    hexadecimal: string -> bool,
    stripe: string -> nat,
    secret: Bytes -> bool,
    maxArtifactBytes: nat,
    maxChunkBytes: nat,
    stagingTtl: Option<nat>)

  datatype Lifecycle =
    | Staging | Validating | Available | Quarantined | Rejected | Expired
    | Missing | Corrupt | Tombstoned | Deleted

  datatype FactState = NotEvaluated | Passed | Failed
  datatype Trust = Untrusted | Trusted | TrustQuarantined

  datatype Facts = Facts(available: bool, integrity: FactState, trust: Trust)

  /** An artifact row with its manifest. `origin` records the upload that inserted it; the
      service does not store that link, and no operation reads it. */
  datatype ArtifactRow = ArtifactRow(
    digest: string, size: nat, ref: string, lifecycle: Lifecycle, facts: Facts,
    sources: seq<Id>, createdAt: int, origin: Id)

  datatype UploadState = UploadStaging | UploadCommitted | UploadAborted

  datatype UploadRow = UploadRow(
    digest: string, size: nat, offset: nat, state: UploadState, artifactId: Option<Id>,
    sources: seq<Id>, updatedAt: int)

  datatype ReferenceRow = ReferenceRow(artifactId: Id, revision: nat, prior: Option<(Id, nat)>)

  datatype GcPlan = GcPlan(candidates: seq<Id>, watermark: int, applied: bool)

  type ReferenceKey = (string, string)

  /** What reconciliation found wrong, and the effect it plans. */
  datatype Issue =
    | MarkMissing(artifactId: Id, ref: string)
    | MarkCorrupt(artifactId: Id, ref: string)
    | DeleteOrphan(ref: string)
    | DeleteReference(key: ReferenceKey)
    | DeleteCollection(collectionId: Id)
    | AbortExpired(uploadId: Id)

  datatype ReconcilePlan = ReconcilePlan(issues: seq<Issue>, createdAt: int, applied: bool)

  /** `evidence` stands for the artifact ids found in results, browser, MCP, execution and
      change rows; `bodies` maps every file below the blob root, by its relative path. */
  datatype Store = Store(
    artifacts: map<Id, ArtifactRow>,
    uploads: map<Id, UploadRow>,
    references: map<ReferenceKey, ReferenceRow>,
    holds: map<Id, string>,
    pins: set<Id>,
    collections: map<Id, map<string, Id>>,
    evidence: set<Id>,
    gcPlans: map<Id, GcPlan>,
    plans: map<Id, ReconcilePlan>,
    staging: map<Id, Bytes>,
    bodies: map<string, Bytes>)

  const EMPTY := Store(map[], map[], map[], map[], {}, map[], {}, map[], map[], map[], map[])

  /* ---------- storage references ---------- */

  predicate IsHex(c: char) { '0' <= c <= '9' || 'a' <= c <= 'f' }

  /** `sha256/` + two hexadecimal digits + `/` + sixty-two more. */
  predicate ValidRef(ref: string) {
    && |ref| == 72
    && ref[..7] == "sha256/"
    && ref[9] == '/'
    && forall i :: 7 <= i < 72 && i != 9 ==> IsHex(ref[i])
  }

  predicate ValidDigest(p: Params, digest: string) {
    |digest| == 71 && digest[..7] == "sha256:" && p.hexadecimal(digest[7..])
  }

  function StorageRef(digest: string): string {
    if |digest| >= 9 then "sha256/" + digest[7..9] + "/" + digest[9..] else ""
  }

  /** A reference holds both parts of its digest. */
  lemma StorageRefParts(d: string)
    requires |d| == 71
    ensures |StorageRef(d)| == 72 && StorageRef(d)[7..9] == d[7..9] && StorageRef(d)[10..] == d[9..]
  {
    var head, tail := d[7..9], d[9..];
    var ref := "sha256/" + head + "/" + tail;
    assert StorageRef(d) == ref;
    assert ref[7..9] == head;
    assert ref[10..] == tail;
  }

  /** Bodies are shared exactly by equal digests. */
  lemma StorageRefInjective(p: Params, d: string, e: string)
    requires ValidDigest(p, d) && ValidDigest(p, e)
    ensures StorageRef(d) == StorageRef(e) <==> d == e
  {
    if StorageRef(d) == StorageRef(e) {
      StorageRefParts(d);
      StorageRefParts(e);
      assert d == d[..7] + d[7..9] + d[9..];
      assert e == e[..7] + e[7..9] + e[9..];
    }
  }

  predicate Matches(p: Params, body: Bytes, digest: string, size: nat) {
    p.digest(body) == digest && |body| == size
  }

  /** A body of exactly this digest and size is stored at `ref`. */
  predicate Backed(p: Params, s: Store, ref: string, digest: string, size: nat) {
    ValidRef(ref) && ref in s.bodies && Matches(p, s.bodies[ref], digest, size)
  }

  /* ---------- lifecycle ---------- */

  /** Whether a row keeps its body from being deleted. */
  predicate Live(row: ArtifactRow) {
    row.lifecycle !in {Tombstoned, Deleted, Missing, Corrupt}
  }

  predicate NoLive(s: Store, ref: string) {
    forall a :: a in s.artifacts && s.artifacts[a].ref == ref ==> !Live(s.artifacts[a])
  }

  predicate Retained(l: Lifecycle) { l in {Available, Quarantined, Rejected, Expired} }

  /** The manifest's availability and integrity facts agree with the row's lifecycle. */
  predicate FactsAgree(row: ArtifactRow) {
    && (row.facts.available <==> Retained(row.lifecycle))
    && (row.lifecycle in {Missing, Corrupt} ==> row.facts.integrity == Failed)
  }

  function SetLifecycle(row: ArtifactRow, l: Lifecycle): (r: ArtifactRow)
    ensures FactsAgree(r)
  {
    row.(lifecycle := l,
         facts := row.facts.(
           available := Retained(l),
           integrity := if l in {Missing, Corrupt} then Failed else row.facts.integrity,
           trust := if l == Quarantined then TrustQuarantined else row.facts.trust))
  }

  function SetRows(rows: map<Id, ArtifactRow>, ids: set<Id>, l: Lifecycle): map<Id, ArtifactRow> {
    map a | a in rows :: if a in ids then SetLifecycle(rows[a], l) else rows[a]
  }

  function SetAll(s: Store, ids: set<Id>, l: Lifecycle): Store {
    s.(artifacts := SetRows(s.artifacts, ids, l))
  }

  /* ---------- uploads ---------- */

  predicate SourcesAvailable(s: Store, sources: seq<Id>) {
    forall x :: x in sources ==> x in s.artifacts && s.artifacts[x].lifecycle == Available
  }

  function OpenUpload(
    p: Params, s: Store, u: Id, digest: string, size: int, sources: seq<Id>, now: int): Result<Store> {
    if !ValidDigest(p, digest) || !SourcesAvailable(s, sources) || !(0 <= size <= p.maxArtifactBytes) then
      Refused(ArtifactError)
    else if u in s.uploads || u in s.staging then
      Refused(Conflict)
    else
      Ok(s.(uploads := s.uploads[u := UploadRow(digest, size, 0, UploadStaging, None, sources, now)],
            staging := s.staging[u := []]))
  }

  /** The checks of `append_chunk` that precede its file write. */
  function AppendCheck(p: Params, s: Store, u: Id, offset: int, content: Bytes): Result<()> {
    if content == [] || |content| > p.maxChunkBytes then Refused(ArtifactError)
    else if u !in s.uploads then Refused(ArtifactError)
    else
      var row := s.uploads[u];
      if row.state != UploadStaging || offset != row.offset then Refused(RevisionMismatch)
      else if row.offset + |content| > row.size then Refused(ArtifactError)
      else if u !in s.staging || |s.staging[u]| != row.offset then Refused(ArtifactError)
      else Ok(())
  }

  /** `written` bytes of the chunk reach the staged file; the cursor moves only when all of
      them did and the transaction commits. */
  function AppendChunk(
    p: Params, s: Store, u: Id, offset: int, content: Bytes, written: nat, commits: bool, now: int): Store {
    if AppendCheck(p, s, u, offset, content).Refused? || written > |content| then s
    else
      var filed := s.(staging := s.staging[u := s.staging[u] + content[..written]]);
      if written < |content| || !commits then filed
      else
        var row := s.uploads[u];
        filed.(uploads := s.uploads[u := row.(offset := row.offset + |content|, updatedAt := now)])
  }

  function AbortUpload(s: Store, u: Id, now: int): Result<Store> {
    if u !in s.uploads || s.uploads[u].state == UploadCommitted then Refused(ArtifactError)
    else Ok(s.(uploads := s.uploads[u := s.uploads[u].(state := UploadAborted, updatedAt := now)],
               staging := s.staging - {u}))
  }

  function Unstaged(s: Store, u: Id): Store { s.(staging := s.staging - {u}) }

  /** The transaction that aborts an upload whose content the inspector rejected. */
  function RejectRow(s: Store, u: Id, now: int): Store {
    if u in s.uploads && s.uploads[u].state == UploadStaging then
      s.(uploads := s.uploads[u := s.uploads[u].(state := UploadAborted, updatedAt := now)])
    else s
  }

  function RejectSecret(s: Store, u: Id, now: int): Store { Unstaged(RejectRow(s, u, now), u) }

  /** Hard-link a verified copy to its reference, or verify the body already there. */
  function Link(p: Params, s: Store, copy: Bytes, ref: string, digest: string, size: nat): Result<Store> {
    if ref !in s.bodies then Ok(s.(bodies := s.bodies[ref := copy]))
    else if Matches(p, s.bodies[ref], digest, size) then Ok(s)
    else Refused(ArtifactError)
  }

  /** The row transaction of a commit, for an upload still in staging. */
  function InsertArtifact(s: Store, u: Id, a: Id, now: int): Store
    requires u in s.uploads
  {
    var row := s.uploads[u];
    s.(artifacts := s.artifacts[a := ArtifactRow(row.digest, row.size, StorageRef(row.digest), Available,
                                                 Facts(true, Passed, Untrusted), row.sources, now, u)],
       uploads := s.uploads[u := row.(state := UploadCommitted, artifactId := Some(a), updatedAt := now)])
  }

  /* ---------- references and garbage collection ---------- */

  function UpdateReference(s: Store, key: ReferenceKey, a: Id, expected: int): Result<Store> {
    if a !in s.artifacts || s.artifacts[a].lifecycle != Available then Refused(ArtifactError)
    else
      var current := if key in s.references then s.references[key].revision else 0;
      if current != expected then Refused(RevisionMismatch)
      else
        var prior := if key in s.references
                     then Some((s.references[key].artifactId, s.references[key].revision)) else None;
        Ok(s.(references := s.references[key := ReferenceRow(a, current + 1, prior)]))
  }

  function DirectRoots(s: Store): set<Id> {
    (set k | k in s.references :: s.references[k].artifactId)
    + s.holds.Keys + s.pins
    + (set c, n | c in s.collections && n in s.collections[c] :: s.collections[c][n])
    + s.evidence
  }

  function ProvenanceEdges(s: Store): Edges {
    map a | a in s.artifacts :: s.artifacts[a].sources
  }

  ghost function RootedArtifacts(s: Store): set<Id> {
    Rooted(ProvenanceEdges(s), DirectRoots(s))
  }

  ghost predicate Collectable(s: Store, watermark: int, a: Id) {
    && a in s.artifacts
    && s.artifacts[a].lifecycle == Available
    && s.artifacts[a].createdAt < watermark
    && a !in RootedArtifacts(s)
  }

  function AvailableAmong(s: Store, ids: seq<Id>): set<Id> {
    set a | a in ids && a in s.artifacts && s.artifacts[a].lifecycle == Available
  }

  /** The tombstone transaction of `apply_gc`: refused as a whole when a candidate is rooted. */
  ghost function Tombstone(s: Store, plan: Id): Result<Store> {
    if plan !in s.gcPlans then Refused(ArtifactError)
    else if s.gcPlans[plan].applied then Ok(s)
    else
      var candidates := s.gcPlans[plan].candidates;
      if exists a :: a in candidates && a in RootedArtifacts(s) then Refused(RevisionMismatch)
      else Ok(SetAll(s, AvailableAmong(s, candidates), Tombstoned)
              .(gcPlans := s.gcPlans[plan := s.gcPlans[plan].(applied := true)]))
  }

  function TombstonedAt(s: Store, ref: string): set<Id> {
    set a | a in s.artifacts && s.artifacts[a].ref == ref && s.artifacts[a].lifecycle == Tombstoned
  }

  function DeleteBody(s: Store, ref: string): Store {
    s.(bodies := s.bodies - {ref})
  }
}
