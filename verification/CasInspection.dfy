/** Which bodies the inspector has passed. A commit inspects its staged file before it publishes it, and
    an append may land in between. */
module CasInspection {
  import opened Outcomes
  import opened ArtifactRoots
  import opened ArtifactStore
  import opened Reconciliation
  import opened CasProtocol
  import opened CasSafety
  import opened CasResults

  /* ---------- runs in which what is published is what was inspected ---------- */

  /** The step publishes bytes other than those that its thread inspected. */
  predicate Torn(s: System, e: Event) {
    && e.ByCommit? && e.commit.Copy?
    && e.t in s.threads && s.threads[e.t].Commit? && s.threads[e.t].pc.Inspected?
    && s.threads[e.t].upload in s.store.staging
    && s.store.staging[s.threads[e.t].upload] != s.threads[e.t].pc.seen
  }

  ghost predicate NeverTorn(p: Params, s: System, events: seq<Event>)
    decreases |events|
  {
    events != [] ==> !Torn(s, events[0]) && NeverTorn(p, Step(p, s, events[0]), events[1..])
  }

  predicate PassedThread(p: Params, th: Thread) {
    th.Commit? ==>
      && (th.pc.Inspected? ==> !p.secret(th.pc.seen))
      && (th.pc.Copied? ==> !p.secret(th.pc.copy))
  }

  /** The inspector passes every body under a valid name, and whatever is about to be linked. */
  ghost predicate BodiesPassed(p: Params, s: System) {
    && (forall r :: r in s.store.bodies && ValidRef(r) ==> !p.secret(s.store.bodies[r]))
    && (forall t :: t in s.threads ==> PassedThread(p, s.threads[t]))
  }

  /** No body under a valid name is written, and no thread comes to hold inspected bytes. */
  ghost predicate WritesNothing(s: System, s': System) {
    && (forall r :: r in s'.store.bodies && ValidRef(r) ==>
          r in s.store.bodies && s'.store.bodies[r] == s.store.bodies[r])
    && (forall t ::
          t in s'.threads && s'.threads[t].Commit? && (s'.threads[t].pc.Inspected? || s'.threads[t].pc.Copied?) ==>
          t in s.threads && s'.threads[t] == s.threads[t])
  }

  lemma WritesNothingKeeps(p: Params, s: System, s': System)
    requires BodiesPassed(p, s) && WritesNothing(s, s')
    ensures BodiesPassed(p, s')
  {}

  lemma InspectPasses(p: Params, s: System, t: Id, now: int)
    requires BodiesPassed(p, s)
    ensures BodiesPassed(p, InspectStep(p, s, t, now))
  {}

  lemma CopyPasses(p: Params, s: System, t: Id, tmp: string)
    requires BodiesPassed(p, s) && !Torn(s, ByCommit(t, Copy(tmp)))
    ensures BodiesPassed(p, CopyStep(p, s, t, tmp))
  {
    if t in s.threads { assert PassedThread(p, s.threads[t]); }
  }

  lemma LinkPasses(p: Params, s: System, t: Id)
    requires BodiesPassed(p, s)
    ensures BodiesPassed(p, LinkStep(p, s, t))
  {
    if t in s.threads { assert PassedThread(p, s.threads[t]); }
  }

  lemma EarlyStepsWriteNothing(p: Params, s: System, t: Id, e: CommitEvent)
    requires e.BeginCommit? || e.Acquire? || e.ReadUpload? || e.Stat? || e.Discard? || e.Recover?
    ensures WritesNothing(s, CommitStep(p, s, t, e))
  {
    match e
    case BeginCommit(_) =>
    case Acquire =>
    case ReadUpload =>
    case Stat =>
    case Discard =>
    case Recover =>
  }

  lemma RemoveWritesNothing(s: System, t: Id)
    ensures WritesNothing(s, RemoveTemporaryStep(s, t))
  {}

  lemma UnstageWritesNothing(s: System, t: Id)
    ensures WritesNothing(s, UnstageStep(s, t))
  {}

  lemma InsertWritesNothing(s: System, t: Id, a: Id, now: int)
    ensures WritesNothing(s, InsertRowStep(s, t, a, now))
  {}

  lemma OtherCommitsWriteNothing(p: Params, s: System, t: Id, e: CommitEvent)
    requires !e.Inspect? && !e.Copy? && !e.LinkBody?
    ensures WritesNothing(s, CommitStep(p, s, t, e))
  {
    match e
    case RemoveTemporary => RemoveWritesNothing(s, t);
    case Unstage => UnstageWritesNothing(s, t);
    case InsertRow(a, now) => InsertWritesNothing(s, t, a, now);
    case _ => EarlyStepsWriteNothing(p, s, t, e);
  }

  lemma CollectWritesNothing(p: Params, s: System, t: Id, e: CollectEvent)
    ensures WritesNothing(s, CollectStep(p, s, t, e))
  {
    match e
    case ApplyGc(_) =>
    case BeginOrphans(_) =>
    case NextRef(_) =>
    case Enter =>
    case CheckLive =>
    case RemoveBody =>
    case MarkDeleted =>
  }

  lemma ReadWritesNothing(p: Params, s: System, t: Id, e: ReadEvent)
    ensures WritesNothing(s, ReadStep(p, s, t, e))
  {}

  lemma StepPasses(p: Params, s: System, e: Event)
    requires BodiesPassed(p, s) && !Torn(s, e)
    ensures BodiesPassed(p, Step(p, s, e))
  {
    match e
    case OnStore(x) => StoreKeepsBodies(p, s.store, x);
    case OnRoots(x) => RootStepFrame(s.store, x);
    case ByCommit(t, c) =>
      match c {
        case Inspect(now) => InspectPasses(p, s, t, now);
        case Copy(tmp) => CopyPasses(p, s, t, tmp);
        case LinkBody => LinkPasses(p, s, t);
        case _ =>
          OtherCommitsWriteNothing(p, s, t, c);
          WritesNothingKeeps(p, s, CommitStep(p, s, t, c));
      }
    case ByCollector(t, c) =>
      CollectWritesNothing(p, s, t, c);
      WritesNothingKeeps(p, s, CollectStep(p, s, t, c));
    case ByReader(t, r) =>
      ReadWritesNothing(p, s, t, r);
      WritesNothingKeeps(p, s, ReadStep(p, s, t, r));
    case Crash =>
  }

  lemma {:induction false} RunPasses(p: Params, s: System, events: seq<Event>)
    requires BodiesPassed(p, s) && NeverTorn(p, s, events)
    ensures BodiesPassed(p, Run(p, s, events))
    decreases |events|
  {
    if events != [] {
      StepPasses(p, s, events[0]);
      RunPasses(p, Step(p, s, events[0]), events[1..]);
    }
  }

  /** As long as no append lands between an inspection and its publication, the inspector passes the body of
      every available artifact, whatever else interleaves or crashes and whatever the digest. */
  lemma UntornBodiesAreInspected(p: Params, events: seq<Event>, a: Id)
    requires NeverTorn(p, START, events)
    ensures var s := Run(p, START, events).store;
            a in s.artifacts && s.artifacts[a].lifecycle == Available ==>
              s.artifacts[a].ref in s.bodies && !p.secret(s.bodies[s.artifacts[a].ref])
  {
    RunPasses(p, START, events);
    RunKeeps(p, START, events);
    AvailableHasItsBody(p, events, a);
    var s := Run(p, START, events).store;
    if a in s.artifacts { assert RowOfUpload(s, a); }
  }

  /* ---------- runs in which no abort is cut off after its unlink ---------- */

  predicate CutOff(e: Event) { e.OnStore? && e.store.Abort? && !e.store.commits }

  /** Some content of this digest and size passed the inspector. */
  ghost predicate Passed(p: Params, digest: string, size: nat) {
    exists c :: Matches(p, c, digest, size) && !p.secret(c)
  }

  /** The staged file still begins with what its thread saw of it. */
  predicate StagedSince(s: Store, th: Thread, prefix: Bytes) {
    th.Commit? && (th.upload in s.staging ==> prefix <= s.staging[th.upload])
  }

  ghost predicate ThreadPassed(p: Params, s: Store, th: Thread) {
    match th
    case Commit(pc, u, digest, size, _) =>
      && u in s.uploads && s.uploads[u].digest == digest && s.uploads[u].size == size
      && (match pc
          case Sized(before) => u in s.staging ==> before <= |s.staging[u]|
          case Discarding => s.uploads[u].state != UploadStaging
          case Inspected(before, seen) => before <= |seen| && !p.secret(seen) && StagedSince(s, th, seen)
          case Copied(before, seen, copy, _) => CopySound(p, s, th, before, seen, copy)
          case Linked(before, seen, copy, _) => CopySound(p, s, th, before, seen, copy)
          case Published(before, seen, copy) => CopySound(p, s, th, before, seen, copy)
          case Removed => s.uploads[u].state == UploadStaging ==> Passed(p, digest, size)
          case _ => true)
    case _ => true
  }

  predicate CopySound(p: Params, s: Store, th: Thread, before: nat, seen: Bytes, copy: Bytes) {
    && th.Commit? && before <= |seen| && !p.secret(seen) && seen <= copy
    && Matches(p, copy, th.digest, th.size) && StagedSince(s, th, copy)
  }

  /** Rows, and uploads whose staged file is gone, stand for content that passed. */
  ghost predicate RowsPassed(p: Params, s: Store) {
    && (forall a :: a in s.artifacts ==> Passed(p, s.artifacts[a].digest, s.artifacts[a].size))
    && (forall u :: u in s.uploads && s.uploads[u].state == UploadStaging && u !in s.staging ==>
          Passed(p, s.uploads[u].digest, s.uploads[u].size))
    && (forall u :: u in s.staging ==> u in s.uploads)
  }

  ghost predicate AllPassed(p: Params, s: System) {
    RowsPassed(p, s.store) && forall t :: t in s.threads ==> ThreadPassed(p, s.store, s.threads[t])
  }

  /** Uploads age, staged files only grow, and one goes only with its upload. */
  ghost predicate Grows(s: Store, s': Store) {
    && UploadsAge(s, s')
    && (forall u :: u in s.staging && u in s'.staging ==> s.staging[u] <= s'.staging[u])
    && (forall u :: u in s'.staging && u !in s.staging ==> u in s'.uploads && u !in s.uploads)
    && (forall u :: u in s'.uploads && s'.uploads[u].state == UploadStaging && u !in s'.staging ==>
          u in s.uploads && u !in s.staging)
    && s'.artifacts.Keys == s.artifacts.Keys
    && (forall a :: a in s.artifacts ==>
          s'.artifacts[a].digest == s.artifacts[a].digest && s'.artifacts[a].size == s.artifacts[a].size)
  }

  lemma GrowsKeepsThread(p: Params, s: Store, s': Store, th: Thread)
    requires RowsPassed(p, s) && Grows(s, s') && ThreadPassed(p, s, th)
    ensures ThreadPassed(p, s', th)
  {
    if th.Commit? { assert UploadAges(s.uploads[th.upload], s'.uploads[th.upload]); }
  }

  lemma GrowsKeepsRows(p: Params, s: Store, s': Store)
    requires RowsPassed(p, s) && Grows(s, s')
    ensures RowsPassed(p, s')
  {
    forall u | u in s.uploads ensures u in s'.uploads && UploadAges(s.uploads[u], s'.uploads[u]) {}
  }

  lemma GrowsKeeps(p: Params, s: System, store: Store)
    requires AllPassed(p, s) && Grows(s.store, store)
    ensures AllPassed(p, s.(store := store))
  {
    GrowsKeepsRows(p, s.store, store);
    forall t | t in s.threads ensures ThreadPassed(p, store, s.threads[t]) {
      GrowsKeepsThread(p, s.store, store, s.threads[t]);
    }
  }

  lemma MovePasses(p: Params, s: System, store: Store, t: Id, th: Thread)
    requires AllPassed(p, s) && Grows(s.store, store) && ThreadPassed(p, store, th)
    ensures AllPassed(p, Put(s, t, th).(store := store))
  {
    GrowsKeeps(p, s, store);
  }

  /* ---------- transactions ---------- */

  lemma OpenGrows(p: Params, s: Store, u: Id, digest: string, size: int, sources: seq<Id>, now: int)
    requires OpenUpload(p, s, u, digest, size, sources, now).Ok?
    ensures Grows(s, OpenUpload(p, s, u, digest, size, sources, now).value)
  {}

  lemma AppendGrows(p: Params, s: Store, u: Id, offset: int, content: Bytes, written: nat, commits: bool, now: int)
    ensures Grows(s, AppendChunk(p, s, u, offset, content, written, commits, now))
  {}

  lemma AbortGrows(s: Store, u: Id, now: int)
    requires AbortUpload(s, u, now).Ok?
    ensures Grows(s, AbortUpload(s, u, now).value)
  {}

  lemma ExpireGrows(s: Store, u: Id)
    requires u in s.uploads && s.uploads[u].state != UploadStaging
    ensures Grows(s, Unstaged(s, u))
  {}

  /** Files and the set of uploads stay, and rows age. */
  ghost predicate KeepsFiles(s: Store, s': Store) {
    Grows(s, s') && s'.staging == s.staging && s'.uploads.Keys == s.uploads.Keys
  }

  lemma {:induction false} IssuesKeepFiles(s: Store, issues: seq<Issue>)
    ensures KeepsFiles(s, ApplyRows(s, issues))
    decreases |issues|
  {
    if issues == [] {
      FilesKept(s);
    } else {
      IssueKeepsFiles(s, issues[0]);
      IssuesKeepFiles(ApplyRow(s, issues[0]), issues[1..]);
      KeepsFilesTwice(s, ApplyRow(s, issues[0]), ApplyRows(s, issues));
    }
  }

  lemma FilesKept(s: Store)
    ensures KeepsFiles(s, s)
  {}

  lemma IssueKeepsFiles(s: Store, i: Issue)
    ensures KeepsFiles(s, ApplyRow(s, i))
  {
    match i
    case MarkMissing(a, _) => SetAllKeepsFiles(s, {a}, Missing);
    case MarkCorrupt(a, _) => SetAllKeepsFiles(s, {a}, Corrupt);
    case DeleteReference(_) => FilesKept(s);
    case DeleteCollection(_) => FilesKept(s);
    case AbortExpired(u) =>
      FilesKept(s);
      if u in s.uploads { RowChangeKeepsFiles(s, u, s.uploads[u].(state := UploadAborted)); }
    case DeleteOrphan(_) => FilesKept(s);
  }

  lemma SetAllKeepsFiles(s: Store, ids: set<Id>, l: Lifecycle)
    ensures KeepsFiles(s, SetAll(s, ids, l))
  {}

  lemma RowChangeKeepsFiles(s: Store, u: Id, row: UploadRow)
    requires u in s.uploads && UploadAges(s.uploads[u], row)
    ensures KeepsFiles(s, s.(uploads := s.uploads[u := row]))
  {}

  lemma KeepsFilesTwice(s: Store, s': Store, s'': Store)
    requires KeepsFiles(s, s') && KeepsFiles(s', s'')
    ensures KeepsFiles(s, s'')
  {
    forall u | u in s.uploads ensures u in s''.uploads && UploadAges(s.uploads[u], s''.uploads[u]) {
      assert UploadAges(s.uploads[u], s'.uploads[u]) && UploadAges(s'.uploads[u], s''.uploads[u]);
    }
  }

  lemma StoreStepGrows(p: Params, s: Store, e: StoreEvent)
    requires !(e.Abort? && !e.commits)
    ensures Grows(s, StoreStep(p, s, e))
  {
    FilesKept(s);
    match e
    case Open(u, digest, size, sources, now) =>
      if OpenUpload(p, s, u, digest, size, sources, now).Ok? { OpenGrows(p, s, u, digest, size, sources, now); }
    case Append(u, offset, content, written, commits, now) => AppendGrows(p, s, u, offset, content, written, commits,
      now);
    case Abort(u, now, _) => if AbortUpload(s, u, now).Ok? { AbortGrows(s, u, now); }
    case Expire(u) => if u in s.uploads && s.uploads[u].state == UploadAborted { ExpireGrows(s, u); }
    case ReconcileRows(issues) => IssuesKeepFiles(s, issues);
  }

  lemma RootStepGrows(s: Store, e: RootEvent)
    ensures Grows(s, RootStep(s, e))
  {
    RootStepFrame(s, e);
    RootStaging(s, e);
    FilesKept(s);
  }

  lemma RootStaging(s: Store, e: RootEvent)
    ensures RootStep(s, e).staging == s.staging
  {}

  lemma SetAllGrows(s: Store, ids: set<Id>, l: Lifecycle)
    ensures Grows(s, SetAll(s, ids, l))
  {}

  lemma RowChangeGrows(s: Store, u: Id, row: UploadRow)
    requires u in s.uploads && UploadAges(s.uploads[u], row)
    ensures Grows(s, s.(uploads := s.uploads[u := row]))
  {}

  lemma RejectRowGrows(s: Store, u: Id, now: int)
    ensures Grows(s, RejectRow(s, u, now))
  {
    FilesKept(s);
    if u in s.uploads && s.uploads[u].state == UploadStaging {
      RowChangeGrows(s, u, s.uploads[u].(state := UploadAborted, updatedAt := now));
    }
  }

  lemma RejectedIsNotStaging(s: Store, u: Id, now: int)
    requires u in s.uploads
    ensures u in RejectRow(s, u, now).uploads && RejectRow(s, u, now).uploads[u].state != UploadStaging
  {}

  lemma BodiesGrow(s: Store, bodies: map<string, Bytes>)
    ensures Grows(s, s.(bodies := bodies))
  {}

  /* ---------- steps of a commit ---------- */

  lemma BeginsPass(p: Params, s: System, t: Id, e: CommitEvent)
    requires AllPassed(p, s) && (e.BeginCommit? || e.Acquire? || e.ReadUpload? || e.Stat?)
    ensures AllPassed(p, CommitStep(p, s, t, e))
  {
    FilesKept(s.store);
    if t in s.threads { assert ThreadPassed(p, s.store, s.threads[t]); }
  }

  lemma RecoverPasses(p: Params, s: System, t: Id)
    requires AllPassed(p, s)
    ensures AllPassed(p, RecoverStep(p, s, t))
  {
    if At(s, t, Ready) { assert ThreadPassed(p, s.store, s.threads[t]); }
  }

  lemma InspectingPasses(p: Params, s: System, t: Id, now: int)
    requires AllPassed(p, s)
    ensures AllPassed(p, InspectStep(p, s, t, now))
  {
    var s' := InspectStep(p, s, t, now);
    if t in s.threads && s.threads[t].Commit? && s.threads[t].pc.Sized? {
      assert ThreadPassed(p, s.store, s.threads[t]);
      FilesKept(s.store);
      RejectRowGrows(s.store, s.threads[t].upload, now);
      RejectedIsNotStaging(s.store, s.threads[t].upload, now);
      MovePasses(p, s, s'.store, t, s'.threads[t]);
    }
  }

  lemma DiscardPasses(p: Params, s: System, t: Id)
    requires AllPassed(p, s)
    ensures AllPassed(p, DiscardStep(s, t))
  {
    if At(s, t, Discarding) {
      assert ThreadPassed(p, s.store, s.threads[t]);
      ExpireGrows(s.store, s.threads[t].upload);
      MovePasses(p, s, Unstaged(s.store, s.threads[t].upload), t, Done(s.threads[t].upload, None));
    }
  }

  lemma CopyingPasses(p: Params, s: System, t: Id, tmp: string)
    requires AllPassed(p, s)
    ensures AllPassed(p, CopyStep(p, s, t, tmp))
  {
    var s' := CopyStep(p, s, t, tmp);
    if t in s.threads && s.threads[t].Commit? && s.threads[t].pc.Inspected? && s' != s {
      assert ThreadPassed(p, s.store, s.threads[t]);
      BodiesGrow(s.store, s'.store.bodies);
      MovePasses(p, s, s'.store, t, s'.threads[t]);
    }
  }

  lemma LinkingPasses(p: Params, s: System, t: Id)
    requires AllPassed(p, s)
    ensures AllPassed(p, LinkStep(p, s, t))
  {
    var s' := LinkStep(p, s, t);
    if t in s.threads && s.threads[t].Commit? && s.threads[t].pc.Copied? {
      assert ThreadPassed(p, s.store, s.threads[t]);
      BodiesGrow(s.store, s'.store.bodies);
      MovePasses(p, s, s'.store, t, s'.threads[t]);
    }
  }

  lemma RemovingPasses(p: Params, s: System, t: Id)
    requires AllPassed(p, s)
    ensures AllPassed(p, RemoveTemporaryStep(s, t))
  {
    var s' := RemoveTemporaryStep(s, t);
    if t in s.threads && s.threads[t].Commit? && (s.threads[t].pc.Linked? || s.threads[t].pc.Spoiled?) {
      assert ThreadPassed(p, s.store, s.threads[t]);
      BodiesGrow(s.store, s'.store.bodies);
      MovePasses(p, s, s'.store, t, s'.threads[t]);
    }
  }

  /** The staged file has the size that was observed first, so it is what was inspected and published. */
  lemma UnstagedWasInspected(p: Params, s: System, t: Id)
    requires AllPassed(p, s) && t in s.threads && s.threads[t].Commit? && s.threads[t].pc.Published?
    requires s.threads[t].upload in s.store.staging && |s.store.staging[s.threads[t].upload]| == s.threads[t].pc.before
    ensures Passed(p, s.threads[t].digest, s.threads[t].size)
  {
    var th := s.threads[t];
    assert ThreadPassed(p, s.store, th);
    assert th.pc.seen == th.pc.copy;
  }

  lemma UnstagedThread(p: Params, s: Store, u: Id, th: Thread)
    requires ThreadPassed(p, s, th)
    ensures ThreadPassed(p, Unstaged(s, u), th)
  {}

  lemma UnstagePasses(p: Params, s: System, t: Id)
    requires AllPassed(p, s)
    ensures AllPassed(p, UnstageStep(s, t))
  {
    var s' := UnstageStep(s, t);
    if t in s.threads && s.threads[t].Commit? && s.threads[t].pc.Published? {
      var th := s.threads[t];
      assert ThreadPassed(p, s.store, th);
      if s'.store != s.store {
        UnstagedWasInspected(p, s, t);
        forall u | u in s'.threads ensures ThreadPassed(p, s'.store, s'.threads[u]) {
          if u != t { UnstagedThread(p, s.store, th.upload, s.threads[u]); }
        }
      }
    }
  }

  lemma InsertedThread(p: Params, s: Store, u: Id, a: Id, now: int, th: Thread)
    requires u in s.uploads && ThreadPassed(p, s, th)
    ensures ThreadPassed(p, InsertArtifact(s, u, a, now), th)
  {}

  lemma InsertPasses(p: Params, s: System, t: Id, a: Id, now: int)
    requires AllPassed(p, s)
    ensures AllPassed(p, InsertRowStep(s, t, a, now))
  {
    var s' := InsertRowStep(s, t, a, now);
    if At(s, t, Removed) && s' != s {
      assert ThreadPassed(p, s.store, s.threads[t]);
      if s'.store != s.store {
        forall u | u in s'.threads ensures ThreadPassed(p, s'.store, s'.threads[u]) {
          if u != t { InsertedThread(p, s.store, s.threads[t].upload, a, now, s.threads[u]); }
        }
      }
    }
  }

  lemma CommitPasses(p: Params, s: System, t: Id, e: CommitEvent)
    requires AllPassed(p, s)
    ensures AllPassed(p, CommitStep(p, s, t, e))
  {
    match e
    case Inspect(now) => InspectingPasses(p, s, t, now);
    case Discard => DiscardPasses(p, s, t);
    case Copy(tmp) => CopyingPasses(p, s, t, tmp);
    case LinkBody => LinkingPasses(p, s, t);
    case RemoveTemporary => RemovingPasses(p, s, t);
    case Unstage => UnstagePasses(p, s, t);
    case Recover => RecoverPasses(p, s, t);
    case InsertRow(a, now) => InsertPasses(p, s, t, a, now);
    case _ => BeginsPass(p, s, t, e);
  }

  /** What collectors and readers do to the store, and to threads that commit: they start none. */
  ghost predicate OnlyOthers(s: System, s': System) {
    && Grows(s.store, s'.store)
    && forall t :: t in s'.threads && s'.threads[t].Commit? ==> t in s.threads && s'.threads[t] == s.threads[t]
  }

  lemma OnlyOthersPass(p: Params, s: System, s': System)
    requires AllPassed(p, s) && OnlyOthers(s, s')
    ensures AllPassed(p, s')
  {
    GrowsKeepsRows(p, s.store, s'.store);
    forall t | t in s'.threads && s'.threads[t].Commit? ensures ThreadPassed(p, s'.store, s'.threads[t]) {
      GrowsKeepsThread(p, s.store, s'.store, s.threads[t]);
    }
  }

  lemma ApplyGcOthers(s: System, t: Id, plan: Id)
    ensures OnlyOthers(s, ApplyGcStep(s, t, plan))
  {
    FilesKept(s.store);
    if ApplyGcStep(s, t, plan) != s {
      SetAllGrows(s.store, AvailableAmong(s.store, s.store.gcPlans[plan].candidates), Tombstoned);
    }
  }

  lemma MarkDeletedOthers(s: System, t: Id)
    ensures OnlyOthers(s, MarkDeletedStep(s, t))
  {
    FilesKept(s.store);
    if AtCollect(s, t, Cleared) { SetAllGrows(s.store, TombstonedAt(s.store, s.threads[t].ref), Deleted); }
  }

  lemma RemoveBodyOthers(s: System, t: Id)
    ensures OnlyOthers(s, RemoveBodyStep(s, t))
  {
    FilesKept(s.store);
    BodiesGrow(s.store, RemoveBodyStep(s, t).store.bodies);
  }

  lemma CollectOthers(p: Params, s: System, t: Id, e: CollectEvent)
    ensures OnlyOthers(s, CollectStep(p, s, t, e))
  {
    FilesKept(s.store);
    match e
    case ApplyGc(plan) => ApplyGcOthers(s, t, plan);
    case BeginOrphans(_) =>
    case NextRef(_) =>
    case Enter =>
    case CheckLive =>
    case RemoveBody => RemoveBodyOthers(s, t);
    case MarkDeleted => MarkDeletedOthers(s, t);
  }

  lemma ReadOthers(p: Params, s: System, t: Id, e: ReadEvent)
    ensures OnlyOthers(s, ReadStep(p, s, t, e))
  {
    FilesKept(s.store);
    if e.MarkRead? && MarkReadStep(s, t) != s {
      SetAllGrows(s.store, {s.threads[t].artifact}, s.threads[t].verdict.value);
    }
  }

  lemma StepAllPassed(p: Params, s: System, e: Event)
    requires AllPassed(p, s) && !CutOff(e)
    ensures AllPassed(p, Step(p, s, e))
  {
    match e
    case OnStore(x) =>
      StoreStepGrows(p, s.store, x);
      GrowsKeeps(p, s, StoreStep(p, s.store, x));
    case OnRoots(x) =>
      RootStepGrows(s.store, x);
      GrowsKeeps(p, s, RootStep(s.store, x));
    case ByCommit(t, c) => CommitPasses(p, s, t, c);
    case ByCollector(t, c) =>
      CollectOthers(p, s, t, c);
      OnlyOthersPass(p, s, CollectStep(p, s, t, c));
    case ByReader(t, r) =>
      ReadOthers(p, s, t, r);
      OnlyOthersPass(p, s, ReadStep(p, s, t, r));
    case Crash =>
  }

  lemma {:induction false} RunAllPassed(p: Params, s: System, events: seq<Event>)
    requires AllPassed(p, s) && forall i :: 0 <= i < |events| ==> !CutOff(events[i])
    ensures AllPassed(p, Run(p, s, events))
    decreases |events|
  {
    if events != [] {
      StepAllPassed(p, s, events[0]);
      RunAllPassed(p, Step(p, s, events[0]), events[1..]);
    }
  }

  /** As long as no crash cuts an abort off after its unlink, every artifact stands for content that passed the
      inspector, even if appends land between inspection and publication: if the digest is collision-free for
      it, that content is its body. */
  lemma RowsStandForInspectedContent(p: Params, events: seq<Event>, a: Id)
    requires forall i :: 0 <= i < |events| ==> !CutOff(events[i])
    ensures var s := Run(p, START, events).store;
            a in s.artifacts ==>
              && Passed(p, s.artifacts[a].digest, s.artifacts[a].size)
              && (s.artifacts[a].lifecycle == Available
                  && (forall c, c' :: p.digest(c) == p.digest(c') == s.artifacts[a].digest ==> c == c') ==>
                    s.artifacts[a].ref in s.bodies && !p.secret(s.bodies[s.artifacts[a].ref]))
  {
    RunAllPassed(p, START, events);
    AvailableHasItsBody(p, events, a);
  }
}
