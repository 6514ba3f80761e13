/** Every interleaving of commits, collections, orphan deletions, readers and row transactions
    over the shared store, under the striped lock, with a crash possible between any two steps.

    Each event is one atomic piece of a service call: one transaction, one file operation, or
    taking the lock. An event whose guard fails changes nothing, or ends its thread refused. */
module CasProtocol {
  import opened Outcomes
  import opened ArtifactRoots
  import opened ArtifactStore
  import opened Reconciliation

  /** `before` is the size that was observed first; `seen` and `copy` are the bytes that were
      inspected and published, of which the caller keeps no trace and no guard reads `seen`. */
  datatype CommitPc =
    | Waiting
    | Locked
    | Ready
    | Sized(before: nat)
    | Discarding
    | Inspected(before: nat, seen: Bytes)
    | Copied(before: nat, seen: Bytes, copy: Bytes, tmp: string)
    | Linked(before: nat, seen: Bytes, copy: Bytes, tmp: string)
    | Spoiled(tmp: string)
    | Published(before: nat, seen: Bytes, copy: Bytes)
    | Removed

  datatype CollectPc = Queued | Entered | Clear | Cleared

  /** What one caller is doing. `Collect` deletes the body at `ref` and has `rest` to do; a
      garbage collection also marks the tombstoned rows, an orphan deletion does not. */
  datatype Thread =
    | Done(upload: Id, result: Option<Id>)
    | Commit(pc: CommitPc, upload: Id, digest: string, size: nat, ref: string)
    | Sweep(rest: set<string>, marks: bool)
    | Collect(step: CollectPc, ref: string, rest: set<string>, marks: bool)
    | Reader(artifact: Id, verdict: Option<Lifecycle>)

  datatype System = System(store: Store, threads: map<Id, Thread>)

  /** Upload and row transactions that take no lock. */
  datatype StoreEvent =
    | Open(u: Id, digest: string, size: int, sources: seq<Id>, now: int)
    | Append(u: Id, offset: int, content: Bytes, written: nat, commits: bool, now: int)
    | Abort(u: Id, now: int, commits: bool)
    | Expire(u: Id)
    | ReconcileRows(issues: seq<Issue>)

  /** Transactions on references, holds, pins, collections, evidence and collection plans. */
  datatype RootEvent =
    | Reference(key: ReferenceKey, a: Id, expected: int)
    | Hold(a: Id, reason: string)
    | ReleaseHold(a: Id)
    | Pin(a: Id)
    | ReleasePin(a: Id)
    | Collection(c: Id, entries: map<string, Id>)
    | Evidence(ids: set<Id>)
    | PlanGc(plan: Id, watermark: int, candidates: seq<Id>)

  datatype CommitEvent =
    | BeginCommit(u: Id)
    | Acquire
    | ReadUpload
    | Stat
    | Inspect(now: int)
    | Discard
    | Copy(tmp: string)
    | LinkBody
    | RemoveTemporary
    | Unstage
    | Recover
    | InsertRow(a: Id, now: int)

  datatype CollectEvent =
    | ApplyGc(plan: Id)
    | BeginOrphans(refs: set<string>)
    | NextRef(ref: string)
    | Enter
    | CheckLive
    | RemoveBody
    | MarkDeleted

  datatype ReadEvent = BeginRead(a: Id) | Observe | MarkRead

  datatype Event =
    | OnStore(store: StoreEvent)
    | OnRoots(roots: RootEvent)
    | ByCommit(t: Id, commit: CommitEvent)
    | ByCollector(t: Id, collect: CollectEvent)
    | ByReader(t: Id, read: ReadEvent)
    | Crash

  /* ---------- the lock ---------- */

  const STRIPES := 64

  function Stripe(p: Params, ref: string): nat { p.stripe(ref) % STRIPES }

  /** The thread holds the lock of its reference. */
  predicate Holding(th: Thread) {
    (th.Commit? && th.pc != Waiting) || (th.Collect? && th.step != Queued)
  }

  predicate LockFree(p: Params, threads: map<Id, Thread>, ref: string) {
    forall t :: t in threads && Holding(threads[t]) ==> Stripe(p, threads[t].ref) != Stripe(p, ref)
  }

  /* ---------- steps ---------- */

  function Put(s: System, t: Id, th: Thread): System { s.(threads := s.threads[t := th]) }

  function Or(s: Store, r: Result<Store>): Store {
    if r.Ok? then r.value else s
  }

  predicate Free(s: System, t: Id) {
    t !in s.threads || s.threads[t].Done? || (s.threads[t].Sweep? && s.threads[t].rest == {})
  }

  predicate At(s: System, t: Id, pc: CommitPc) {
    t in s.threads && s.threads[t].Commit? && s.threads[t].pc == pc
  }

  predicate AtCollect(s: System, t: Id, step: CollectPc) {
    t in s.threads && s.threads[t].Collect? && s.threads[t].step == step
  }

  function BeginCommitStep(s: System, t: Id, u: Id): System {
    if !Free(s, t) || u !in s.store.uploads then s
    else
      var row := s.store.uploads[u];
      Put(s, t, Commit(Waiting, u, row.digest, row.size, StorageRef(row.digest)))
  }

  function AcquireStep(p: Params, s: System, t: Id): System {
    if At(s, t, Waiting) && LockFree(p, s.threads, s.threads[t].ref) then Put(s, t, s.threads[t].(pc := Locked)) else s
  }

  function EnterStep(p: Params, s: System, t: Id): System {
    if AtCollect(s, t, Queued) && LockFree(p, s.threads, s.threads[t].ref)
      then Put(s, t, s.threads[t].(step := Entered)) else s
  }

  /** The locked read: return a committed artifact, refuse, or go on. */
  function ReadUploadStep(s: System, t: Id): System {
    if !At(s, t, Locked) || s.threads[t].upload !in s.store.uploads then s
    else
      var th := s.threads[t];
      var row := s.store.uploads[th.upload];
      if row.state == UploadCommitted && row.artifactId.Some? && row.artifactId.value in s.store.artifacts then
        Put(s, t, Done(th.upload, row.artifactId))
      else if row.state != UploadStaging then Put(s, t, Done(th.upload, None))
      else Put(s, t, th.(pc := Ready))
  }

  /** Observe the size of the staged file. */
  function StatStep(s: System, t: Id): System {
    if !At(s, t, Ready) || s.threads[t].upload !in s.store.staging then s
    else Put(s, t, s.threads[t].(pc := Sized(|s.store.staging[s.threads[t].upload]|)))
  }

  /** The staged file is gone: accept the verified body of an interrupted commit, or refuse. */
  function RecoverStep(p: Params, s: System, t: Id): System {
    if !At(s, t, Ready) || s.threads[t].upload in s.store.staging then s
    else
      var th := s.threads[t];
      if Backed(p, s.store, th.ref, th.digest, th.size) then Put(s, t, th.(pc := Removed))
      else Put(s, t, Done(th.upload, None))
  }

  /** Inspect the staged bytes; a rejection aborts the upload before its file is unlinked. */
  function InspectStep(p: Params, s: System, t: Id, now: int): System {
    if t !in s.threads || !s.threads[t].Commit? || !s.threads[t].pc.Sized? then s
    else
      var th := s.threads[t];
      if th.upload !in s.store.staging then Put(s, t, Done(th.upload, None))
      else if p.secret(s.store.staging[th.upload]) then
        Put(s, t, th.(pc := Discarding)).(store := RejectRow(s.store, th.upload, now))
      else Put(s, t, th.(pc := Inspected(th.pc.before, s.store.staging[th.upload])))
  }

  function DiscardStep(s: System, t: Id): System {
    if !At(s, t, Discarding) then s
    else Put(s, t, Done(s.threads[t].upload, None)).(store := Unstaged(s.store, s.threads[t].upload))
  }

  /** Verify the staged bytes and write the verified copy to a hidden name. */
  function CopyStep(p: Params, s: System, t: Id, tmp: string): System {
    if t !in s.threads || !s.threads[t].Commit? || !s.threads[t].pc.Inspected? then s
    else
      var th := s.threads[t];
      if th.upload !in s.store.staging || !ValidRef(th.ref)
        || !Matches(p, s.store.staging[th.upload], th.digest, th.size) then
        Put(s, t, Done(th.upload, None))
      else if ValidRef(tmp) || tmp in s.store.bodies then s
      else
        var content := s.store.staging[th.upload];
        Put(s, t, th.(pc := Copied(th.pc.before, th.pc.seen, content, tmp))).(store :=
          s.store.(bodies := s.store.bodies[tmp := content]))
  }

  function LinkStep(p: Params, s: System, t: Id): System {
    if t !in s.threads || !s.threads[t].Commit? || !s.threads[t].pc.Copied? then s
    else
      var th := s.threads[t];
      var r := Link(p, s.store, th.pc.copy, th.ref, th.digest, th.size);
      if r.Refused? then Put(s, t, th.(pc := Spoiled(th.pc.tmp)))
      else Put(s, t, th.(pc := Linked(th.pc.before, th.pc.seen, th.pc.copy, th.pc.tmp))).(store := r.value)
  }

  /** The hidden name goes, whether or not the link succeeded. */
  function RemoveTemporaryStep(s: System, t: Id): System {
    if t !in s.threads || !s.threads[t].Commit? || !(s.threads[t].pc.Linked? || s.threads[t].pc.Spoiled?) then s
    else
      var th := s.threads[t];
      var store := if ValidRef(th.pc.tmp) then s.store else DeleteBody(s.store, th.pc.tmp);
      if th.pc.Spoiled? then Put(s, t, Done(th.upload, None)).(store := store)
      else Put(s, t, th.(pc := Published(th.pc.before, th.pc.seen, th.pc.copy))).(store := store)
  }

  /** Unlink the staged file, unless it is gone or its size changed meanwhile. */
  function UnstageStep(s: System, t: Id): System {
    if t !in s.threads || !s.threads[t].Commit? || !s.threads[t].pc.Published? then s
    else
      var th := s.threads[t];
      if th.upload !in s.store.staging || |s.store.staging[th.upload]| != th.pc.before
        then Put(s, t, Done(th.upload, None))
      else Put(s, t, th.(pc := Removed)).(store := Unstaged(s.store, th.upload))
  }

  function InsertRowStep(s: System, t: Id, a: Id, now: int): System {
    if !At(s, t, Removed) || s.threads[t].upload !in s.store.uploads || a in s.store.artifacts then s
    else
      var th := s.threads[t];
      var row := s.store.uploads[th.upload];
      if row.state == UploadCommitted && row.artifactId.Some? && row.artifactId.value in s.store.artifacts then
        Put(s, t, Done(th.upload, row.artifactId))
      else if row.state != UploadStaging || row.digest != th.digest || row.size != th.size then
        Put(s, t, Done(th.upload, None))
      else Put(s, t, Done(th.upload, Some(a))).(store := InsertArtifact(s.store, th.upload, a, now))
  }

  /** The tombstone transaction; the thread then has the freed references to visit. */
  ghost function ApplyGcStep(s: System, t: Id, plan: Id): System {
    if !Free(s, t) || Tombstone(s.store, plan).Refused? || s.store.gcPlans[plan].applied then s
    else
      var ids := AvailableAmong(s.store, s.store.gcPlans[plan].candidates);
      Put(s, t, Sweep(set a | a in ids :: s.store.artifacts[a].ref, true)).(store := Tombstone(s.store, plan).value)
  }

  function NextRefStep(s: System, t: Id, ref: string): System {
    if t !in s.threads || !s.threads[t].Sweep? || ref !in s.threads[t].rest then s
    else Put(s, t, Collect(Queued, ref, s.threads[t].rest - {ref}, s.threads[t].marks))
  }

  function CheckLiveStep(s: System, t: Id): System {
    if !AtCollect(s, t, Entered) then s
    else
      var th := s.threads[t];
      if NoLive(s.store, th.ref) then Put(s, t, th.(step := Clear)) else Put(s, t, Sweep(th.rest, th.marks))
  }

  function RemoveBodyStep(s: System, t: Id): System {
    if !AtCollect(s, t, Clear) then s
    else
      var th := s.threads[t];
      if !ValidRef(th.ref) then Put(s, t, Done(0, None))
      else Put(s, t, th.(step := Cleared)).(store := DeleteBody(s.store, th.ref))
  }

  function MarkDeletedStep(s: System, t: Id): System {
    if !AtCollect(s, t, Cleared) then s
    else
      var th := s.threads[t];
      var store := if th.marks then SetAll(s.store, TombstonedAt(s.store, th.ref), Deleted) else s.store;
      Put(s, t, Sweep(th.rest, th.marks)).(store := store)
  }

  function BeginReadStep(s: System, t: Id, a: Id): System {
    if !Free(s, t) || a !in s.store.artifacts || s.store.artifacts[a].lifecycle != Available then s
    else Put(s, t, Reader(a, None))
  }

  /** The reader verifies the body. What it then opens again is the subject of `CasReads`. */
  function ObserveStep(p: Params, s: System, t: Id): System {
    if t !in s.threads || !s.threads[t].Reader? || s.threads[t].artifact !in s.store.artifacts then s
    else
      var a := s.threads[t].artifact;
      var row := s.store.artifacts[a];
      if row.ref !in s.store.bodies then Put(s, t, Reader(a, Some(Missing)))
      else if !Matches(p, s.store.bodies[row.ref], row.digest, row.size) then Put(s, t, Reader(a, Some(Corrupt)))
      else Put(s, t, Done(0, None))
  }

  function MarkReadStep(s: System, t: Id): System {
    if t !in s.threads || !s.threads[t].Reader? || s.threads[t].verdict !in {Some(Missing), Some(Corrupt)} then s
    else Put(s, t, Done(0, None)).(store := SetAll(s.store, {s.threads[t].artifact}, s.threads[t].verdict.value))
  }

  /** The unlink happens inside the transaction, and stays when a crash keeps that from committing. */
  function AbortStep(s: Store, u: Id, now: int, commits: bool): Store {
    if AbortUpload(s, u, now).Refused? then s else if commits then AbortUpload(s, u, now).value else Unstaged(s, u)
  }

  function StoreStep(p: Params, s: Store, e: StoreEvent): Store {
    match e
    case Open(u, digest, size, sources, now) => Or(s, OpenUpload(p, s, u, digest, size, sources, now))
    case Append(u, offset, content, written, commits, now) => AppendChunk(p, s, u, offset, content, written, commits,
      now)
    case Abort(u, now, commits) => AbortStep(s, u, now, commits)
    case Expire(u) => if u in s.uploads && s.uploads[u].state == UploadAborted then Unstaged(s, u) else s
    case ReconcileRows(issues) => ApplyRows(s, issues)
  }

  ghost function PlanGcStep(s: Store, plan: Id, watermark: int, candidates: seq<Id>): Store {
    if plan in s.gcPlans || !(forall a :: a in candidates <==> Collectable(s, watermark, a)) then s
    else WithGcPlan(s, plan, GcPlan(candidates, watermark, false))
  }

  function WithGcPlan(s: Store, plan: Id, row: GcPlan): Store { s.(gcPlans := s.gcPlans[plan := row]) }

  ghost function RootStep(s: Store, e: RootEvent): Store {
    match e
    case Reference(key, a, expected) => Or(s, UpdateReference(s, key, a, expected))
    case Hold(a, reason) =>
      if a !in s.artifacts || a in s.holds then s else s.(holds := s.holds[a := reason])
    case ReleaseHold(a) => s.(holds := s.holds - {a})
    case Pin(a) => if a !in s.artifacts then s else s.(pins := s.pins + {a})
    case ReleasePin(a) => s.(pins := s.pins - {a})
    case Collection(c, entries) => if c in s.collections then s else s.(collections := s.collections[c := entries])
    case Evidence(ids) => s.(evidence := ids)
    case PlanGc(plan, watermark, candidates) => PlanGcStep(s, plan, watermark, candidates)
  }

  function CommitStep(p: Params, s: System, t: Id, e: CommitEvent): System {
    match e
    case BeginCommit(u) => BeginCommitStep(s, t, u)
    case Acquire => AcquireStep(p, s, t)
    case ReadUpload => ReadUploadStep(s, t)
    case Stat => StatStep(s, t)
    case Inspect(now) => InspectStep(p, s, t, now)
    case Discard => DiscardStep(s, t)
    case Copy(tmp) => CopyStep(p, s, t, tmp)
    case LinkBody => LinkStep(p, s, t)
    case RemoveTemporary => RemoveTemporaryStep(s, t)
    case Unstage => UnstageStep(s, t)
    case Recover => RecoverStep(p, s, t)
    case InsertRow(a, now) => InsertRowStep(s, t, a, now)
  }

  ghost function CollectStep(p: Params, s: System, t: Id, e: CollectEvent): System {
    match e
    case ApplyGc(plan) => ApplyGcStep(s, t, plan)
    case BeginOrphans(refs) => if Free(s, t) then Put(s, t, Sweep(refs, false)) else s
    case NextRef(ref) => NextRefStep(s, t, ref)
    case Enter => EnterStep(p, s, t)
    case CheckLive => CheckLiveStep(s, t)
    case RemoveBody => RemoveBodyStep(s, t)
    case MarkDeleted => MarkDeletedStep(s, t)
  }

  function ReadStep(p: Params, s: System, t: Id, e: ReadEvent): System {
    match e
    case BeginRead(a) => BeginReadStep(s, t, a)
    case Observe => ObserveStep(p, s, t)
    case MarkRead => MarkReadStep(s, t)
  }

  ghost function Step(p: Params, s: System, e: Event): System {
    match e
    case OnStore(e) => s.(store := StoreStep(p, s.store, e))
    case OnRoots(e) => s.(store := RootStep(s.store, e))
    case ByCommit(t, e) => CommitStep(p, s, t, e)
    case ByCollector(t, e) => CollectStep(p, s, t, e)
    case ByReader(t, e) => ReadStep(p, s, t, e)
    case Crash => s.(threads := map[])
  }

  ghost function Run(p: Params, s: System, events: seq<Event>): System
    decreases |events|
  {
    if events == [] then s else Run(p, Step(p, s, events[0]), events[1..])
  }
}
