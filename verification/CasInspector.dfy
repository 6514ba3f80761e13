/** Which inspectors are safe: those that never reject an extension of what they pass. */
module CasInspector {
  import opened ArtifactRoots
  import opened ArtifactStore
  import opened Reconciliation
  import opened CasProtocol
  import opened CasSafety
  import opened CasResults
  import opened CasInspection
  import opened CasTornPublication
  import opened ArtifactCalls

  /** No content that passes has an extension, within the size limit, that is rejected. */
  ghost predicate KeepsPassing(p: Params) {
    forall seen, content :: seen <= content && |content| <= p.maxArtifactBytes && !p.secret(seen) ==> !p.secret(content)
  }

  /** In every run, every body of an available artifact passes. */
  ghost predicate AvailableAlwaysPasses(p: Params) {
    forall events, a :: AvailablePasses(p, Run(p, START, events).store, a)
  }

  predicate AvailablePasses(p: Params, s: Store, a: Id) {
    a in s.artifacts && s.artifacts[a].lifecycle == Available ==>
      s.artifacts[a].ref in s.bodies && !p.secret(s.bodies[s.artifacts[a].ref])
  }

  /* ---------- staged files grow or go ---------- */

  /** Uploads keep their sizes, which are within the limit; staged files only grow, and appear only with a new
      upload. */
  ghost predicate GrowsOrGoes(p: Params, s: Store, s': Store) {
    && (forall u :: u in s.uploads ==> u in s'.uploads && s'.uploads[u].size == s.uploads[u].size)
    && (forall u :: u in s'.uploads && u !in s.uploads ==> s'.uploads[u].size <= p.maxArtifactBytes)
    && (forall u :: u in s.staging && u in s'.staging ==> s.staging[u] <= s'.staging[u])
    && (forall u :: u in s'.staging && u !in s.staging ==> u !in s.uploads)
  }

  lemma OpenGrowsFiles(p: Params, s: Store, u: Id, digest: string, size: int, sources: seq<Id>, now: int)
    ensures GrowsOrGoes(p, s, Or(s, OpenUpload(p, s, u, digest, size, sources, now)))
  {
    if OpenUpload(p, s, u, digest, size, sources, now).Ok? {
      var s' := OpenUpload(p, s, u, digest, size, sources, now).value;
      assert s'.uploads[u].size <= p.maxArtifactBytes;
    }
  }

  lemma AppendGrowsFiles(
    p: Params, s: Store, u: Id, offset: int, content: Bytes, written: nat, commits: bool, now: int)
    ensures GrowsOrGoes(p, s, AppendChunk(p, s, u, offset, content, written, commits, now))
  {}

  lemma AbortGrowsFiles(p: Params, s: Store, u: Id, now: int, commits: bool)
    ensures GrowsOrGoes(p, s, AbortStep(s, u, now, commits))
  {
    ExpireGrowsFiles(p, s, u);
    if AbortUpload(s, u, now).Ok? { RowStaysSized(p, s, u, s.uploads[u].(state := UploadAborted, updatedAt := now)); }
  }

  lemma RowStaysSized(p: Params, s: Store, u: Id, row: UploadRow)
    requires u in s.uploads && row.size == s.uploads[u].size
    ensures GrowsOrGoes(p, s, s.(uploads := s.uploads[u := row], staging := s.staging - {u}))
    ensures GrowsOrGoes(p, s, s.(uploads := s.uploads[u := row]))
  {}

  lemma ExpireGrowsFiles(p: Params, s: Store, u: Id)
    ensures GrowsOrGoes(p, s, Unstaged(s, u)) && GrowsOrGoes(p, s, s)
  {}

  lemma {:induction false} IssuesKeepUploads(p: Params, s: Store, issues: seq<Issue>)
    ensures GrowsOrGoes(p, s, ApplyRows(s, issues)) && ApplyRows(s, issues).uploads.Keys == s.uploads.Keys
  {
    IssuesKeepFiles(s, issues);
    forall u | u in s.uploads ensures ApplyRows(s, issues).uploads[u].size == s.uploads[u].size {
      assert UploadAges(s.uploads[u], ApplyRows(s, issues).uploads[u]);
    }
  }

  lemma StoreStepGrowsFiles(p: Params, s: Store, e: StoreEvent)
    ensures GrowsOrGoes(p, s, StoreStep(p, s, e))
  {
    match e
    case Open(u, digest, size, sources, now) => OpenGrowsFiles(p, s, u, digest, size, sources, now);
    case Append(u, offset, content, written, commits, now) =>
      AppendGrowsFiles(p, s, u, offset, content, written, commits, now);
    case Abort(u, now, commits) => AbortGrowsFiles(p, s, u, now, commits);
    case Expire(u) => ExpireGrowsFiles(p, s, u);
    case ReconcileRows(issues) => IssuesKeepUploads(p, s, issues);
  }

  lemma RootStepKeepsFiles(p: Params, s: Store, e: RootEvent)
    ensures GrowsOrGoes(p, s, RootStep(s, e)) && RootStep(s, e).bodies == s.bodies
  {
    RootStepFrame(s, e);
    RootStaging(s, e);
  }

  /** Uploads and staged files are the same. */
  predicate SameUploads(s: Store, s': Store) { s'.uploads == s.uploads && s'.staging == s.staging }

  lemma SameUploadsGrow(p: Params, s: Store, s': Store)
    requires SameUploads(s, s')
    ensures GrowsOrGoes(p, s, s')
  {}

  lemma FirstStepsKeepUploads(p: Params, s: System, t: Id, e: CommitEvent)
    requires e.BeginCommit? || e.Acquire? || e.ReadUpload? || e.Stat? || e.Recover?
    ensures SameUploads(s.store, CommitStep(p, s, t, e).store)
  {
    match e
    case BeginCommit(_) =>
    case Acquire =>
    case ReadUpload =>
    case Stat =>
    case Recover =>
  }

  lemma PublishingKeepsUploads(p: Params, s: System, t: Id, e: CommitEvent)
    requires e.Copy? || e.LinkBody? || e.RemoveTemporary?
    ensures SameUploads(s.store, CommitStep(p, s, t, e).store)
  {
    match e
    case Copy(tmp) => CopyKeepsUploads(p, s, t, tmp);
    case LinkBody => LinkKeepsUploads(p, s, t);
    case RemoveTemporary => RemoveKeepsUploads(s, t);
  }

  lemma CopyKeepsUploads(p: Params, s: System, t: Id, tmp: string)
    ensures SameUploads(s.store, CopyStep(p, s, t, tmp).store)
  {}

  lemma LinkKeepsUploads(p: Params, s: System, t: Id)
    ensures SameUploads(s.store, LinkStep(p, s, t).store)
  {}

  lemma RemoveKeepsUploads(s: System, t: Id)
    ensures SameUploads(s.store, RemoveTemporaryStep(s, t).store)
  {
    if t in s.threads && s.threads[t].Commit? && (s.threads[t].pc.Linked? || s.threads[t].pc.Spoiled?) {
      DeletingKeepsUploads(s.store, s.threads[t].pc.tmp);
    }
  }

  lemma DeletingKeepsUploads(s: Store, tmp: string)
    ensures SameUploads(s, DeleteBody(s, tmp)) && SameUploads(s, s)
  {}

  /** A row that keeps its size. */
  lemma RowGrowsFiles(p: Params, s: Store, s': Store, u: Id, row: UploadRow)
    requires u in s.uploads && row.size == s.uploads[u].size
    requires s'.uploads == s.uploads[u := row] && s'.staging == s.staging
    ensures GrowsOrGoes(p, s, s') && s'.uploads.Keys == s.uploads.Keys
  {}

  lemma InspectGrowsFiles(p: Params, s: System, t: Id, now: int)
    ensures GrowsOrGoes(p, s.store, InspectStep(p, s, t, now).store)
    ensures InspectStep(p, s, t, now).store.uploads.Keys == s.store.uploads.Keys
  {
    var store := InspectStep(p, s, t, now).store;
    if store == s.store {
      SameUploadsGrow(p, s.store, store);
    } else {
      var u := s.threads[t].upload;
      RowGrowsFiles(p, s.store, store, u, s.store.uploads[u].(state := UploadAborted, updatedAt := now));
    }
  }

  lemma InsertGrowsFiles(p: Params, s: System, t: Id, a: Id, now: int)
    ensures GrowsOrGoes(p, s.store, InsertRowStep(s, t, a, now).store)
    ensures InsertRowStep(s, t, a, now).store.uploads.Keys == s.store.uploads.Keys
  {
    var store := InsertRowStep(s, t, a, now).store;
    if store == s.store {
      SameUploadsGrow(p, s.store, store);
    } else {
      var u := s.threads[t].upload;
      RowGrowsFiles(p, s.store, store, u, store.uploads[u]);
    }
  }

  lemma UnlinkGrowsFiles(p: Params, s: System, t: Id, e: CommitEvent)
    requires e.Discard? || e.Unstage?
    ensures GrowsOrGoes(p, s.store, CommitStep(p, s, t, e).store)
    ensures CommitStep(p, s, t, e).store.uploads == s.store.uploads
  {
    var store := CommitStep(p, s, t, e).store;
    if store == s.store {
      SameUploadsGrow(p, s.store, store);
    } else {
      ExpireGrowsFiles(p, s.store, s.threads[t].upload);
    }
  }

  lemma CommitStepGrowsFiles(p: Params, s: System, t: Id, e: CommitEvent)
    ensures GrowsOrGoes(p, s.store, CommitStep(p, s, t, e).store)
    ensures CommitStep(p, s, t, e).store.uploads.Keys == s.store.uploads.Keys
  {
    match e
    case Inspect(now) => InspectGrowsFiles(p, s, t, now);
    case InsertRow(a, now) => InsertGrowsFiles(p, s, t, a, now);
    case Discard => UnlinkGrowsFiles(p, s, t, e);
    case Unstage => UnlinkGrowsFiles(p, s, t, e);
    case _ =>
      if e.Copy? || e.LinkBody? || e.RemoveTemporary? {
        PublishingKeepsUploads(p, s, t, e);
      } else {
        FirstStepsKeepUploads(p, s, t, e);
      }
      SameUploadsGrow(p, s.store, CommitStep(p, s, t, e).store);
  }

  /* ---------- everything under a valid name passes ---------- */

  predicate ThreadPasses(p: Params, s: Store, th: Thread) {
    th.Commit? ==>
      && th.upload in s.uploads && th.size == s.uploads[th.upload].size
      && (th.pc.Inspected? ==> !p.secret(th.pc.seen) && StagedSince(s, th, th.pc.seen))
      && (th.pc.Copied? ==> !p.secret(th.pc.copy))
  }

  ghost predicate StorePasses(p: Params, s: Store) {
    && (forall u :: u in s.uploads ==> s.uploads[u].size <= p.maxArtifactBytes)
    && (forall r :: r in s.bodies && ValidRef(r) ==> !p.secret(s.bodies[r]))
  }

  ghost predicate Passes(p: Params, s: System) {
    StorePasses(p, s.store) && forall t :: t in s.threads ==> ThreadPasses(p, s.store, s.threads[t])
  }

  /** A step of thread `t` alone; a body that it writes under a valid name passes. */
  ghost predicate Moves(p: Params, s: System, s': System, t: Id) {
    && GrowsOrGoes(p, s.store, s'.store)
    && (forall r :: r in s'.store.bodies && ValidRef(r) ==>
          (r in s.store.bodies && s'.store.bodies[r] == s.store.bodies[r]) || !p.secret(s'.store.bodies[r]))
    && OnlyThread(s, s', t)
  }

  predicate OnlyThread(s: System, s': System, t: Id) {
    forall u :: u in s'.threads && u != t ==> u in s.threads && s'.threads[u] == s.threads[u]
  }

  lemma ThreadStillPasses(p: Params, s: Store, s': Store, th: Thread)
    requires GrowsOrGoes(p, s, s') && ThreadPasses(p, s, th)
    ensures ThreadPasses(p, s', th)
  {}

  lemma MovedPasses(p: Params, s: System, s': System, t: Id)
    requires Passes(p, s) && Moves(p, s, s', t)
    requires t in s'.threads ==> ThreadPasses(p, s'.store, s'.threads[t])
    ensures Passes(p, s')
  {
    forall u | u in s'.threads ensures ThreadPasses(p, s'.store, s'.threads[u]) {
      if u != t { ThreadStillPasses(p, s.store, s'.store, s.threads[u]); }
    }
  }

  lemma CommitMovesOne(p: Params, s: System, t: Id, e: CommitEvent)
    ensures OnlyThread(s, CommitStep(p, s, t, e), t)
  {}

  /** Even torn, the copy extends what was inspected. */
  lemma CopyPassesAgain(p: Params, s: System, t: Id, tmp: string)
    requires Passes(p, s) && KeepsPassing(p)
    ensures Passes(p, CopyStep(p, s, t, tmp))
  {
    var s' := CopyStep(p, s, t, tmp);
    if t in s.threads { assert ThreadPasses(p, s.store, s.threads[t]); }
    CommitMovesOne(p, s, t, Copy(tmp));
    MovedPasses(p, s, s', t);
  }

  lemma LinkPassesAgain(p: Params, s: System, t: Id)
    requires Passes(p, s)
    ensures Passes(p, LinkStep(p, s, t))
  {
    if t in s.threads { assert ThreadPasses(p, s.store, s.threads[t]); }
    CommitMovesOne(p, s, t, LinkBody);
    MovedPasses(p, s, LinkStep(p, s, t), t);
  }

  lemma InspectedThreadPasses(p: Params, s: System, t: Id, now: int)
    requires t in s.threads && ThreadPasses(p, s.store, s.threads[t])
    ensures var s' := CommitStep(p, s, t, Inspect(now));
            t in s'.threads && ThreadPasses(p, s.store, s'.threads[t]) && s'.store.bodies == s.store.bodies
  {}

  lemma InspectPassesAgain(p: Params, s: System, t: Id, now: int)
    requires Passes(p, s)
    ensures Passes(p, CommitStep(p, s, t, Inspect(now)))
  {
    var s' := CommitStep(p, s, t, Inspect(now));
    if t in s.threads {
      CommitStepGrowsFiles(p, s, t, Inspect(now));
      CommitMovesOne(p, s, t, Inspect(now));
      InspectedThreadPasses(p, s, t, now);
      SameBodiesPass(p, s, s', t);
    }
  }

  lemma SameBodiesPass(p: Params, s: System, s': System, t: Id)
    requires Passes(p, s) && GrowsOrGoes(p, s.store, s'.store) && s'.store.bodies == s.store.bodies
    requires OnlyThread(s, s', t) && t in s'.threads && ThreadPasses(p, s.store, s'.threads[t])
    ensures Passes(p, s')
  {
    ThreadStillPasses(p, s.store, s'.store, s'.threads[t]);
    MovedPasses(p, s, s', t);
  }

  predicate SizeIsTheUploads(s: Store, th: Thread) {
    th.Commit? ==> th.upload in s.uploads && th.size == s.uploads[th.upload].size
  }

  lemma CommitKeepsSize(p: Params, s: System, t: Id, e: CommitEvent)
    requires t in s.threads ==> SizeIsTheUploads(s.store, s.threads[t])
    ensures var s' := CommitStep(p, s, t, e); t in s'.threads ==> SizeIsTheUploads(s.store, s'.threads[t])
  {}

  lemma OtherCommitsPassAgain(p: Params, s: System, t: Id, e: CommitEvent)
    requires Passes(p, s) && !e.Copy? && !e.LinkBody? && !e.Inspect?
    ensures Passes(p, CommitStep(p, s, t, e))
  {
    var s' := CommitStep(p, s, t, e);
    OtherCommitsWriteNothing(p, s, t, e);
    CommitStepGrowsFiles(p, s, t, e);
    CommitMovesOne(p, s, t, e);
    if t in s.threads { assert ThreadPasses(p, s.store, s.threads[t]); }
    CommitKeepsSize(p, s, t, e);
    if t in s'.threads && t in s.threads { UnwrittenPasses(p, s.store, s'.store, s.threads[t], s'.threads[t]); }
    MovedPasses(p, s, s', t);
  }

  lemma UnwrittenPasses(p: Params, s: Store, s': Store, th: Thread, th': Thread)
    requires GrowsOrGoes(p, s, s') && ThreadPasses(p, s, th) && SizeIsTheUploads(s, th')
    requires th'.Commit? && (th'.pc.Inspected? || th'.pc.Copied?) ==> th' == th
    ensures ThreadPasses(p, s', th')
  {}

  lemma CommitPassesAgain(p: Params, s: System, t: Id, e: CommitEvent)
    requires Passes(p, s) && KeepsPassing(p)
    ensures Passes(p, CommitStep(p, s, t, e))
  {
    match e {
      case Copy(tmp) => CopyPassesAgain(p, s, t, tmp);
      case LinkBody => LinkPassesAgain(p, s, t);
      case Inspect(now) => InspectPassesAgain(p, s, t, now);
      case _ => OtherCommitsPassAgain(p, s, t, e);
    }
  }

  /** Collectors and readers write no body, and start no commit. */
  lemma OthersPassAgain(p: Params, s: System, s': System)
    requires Passes(p, s) && OnlyOthers(s, s') && s'.store.uploads == s.store.uploads && WritesNothing(s, s')
    ensures Passes(p, s')
  {
    forall t | t in s'.threads && s'.threads[t].Commit? ensures ThreadPasses(p, s'.store, s'.threads[t]) {
      ThreadStillPasses(p, s.store, s'.store, s.threads[t]);
    }
  }

  lemma CollectUploads(p: Params, s: System, t: Id, e: CollectEvent)
    ensures CollectStep(p, s, t, e).store.uploads == s.store.uploads
  {}

  lemma StoreChangePasses(p: Params, s: System, store: Store)
    requires Passes(p, s) && GrowsOrGoes(p, s.store, store) && store.bodies == s.store.bodies
    ensures Passes(p, s.(store := store))
  {
    forall t | t in s.threads ensures ThreadPasses(p, store, s.threads[t]) {
      ThreadStillPasses(p, s.store, store, s.threads[t]);
    }
  }

  lemma CollectPassesAgain(p: Params, s: System, t: Id, e: CollectEvent)
    requires Passes(p, s)
    ensures Passes(p, CollectStep(p, s, t, e))
  {
    CollectOthers(p, s, t, e);
    CollectWritesNothing(p, s, t, e);
    CollectUploads(p, s, t, e);
    OthersPassAgain(p, s, CollectStep(p, s, t, e));
  }

  lemma ReadPassesAgain(p: Params, s: System, t: Id, e: ReadEvent)
    requires Passes(p, s)
    ensures Passes(p, ReadStep(p, s, t, e))
  {
    ReadOthers(p, s, t, e);
    ReadWritesNothing(p, s, t, e);
    OthersPassAgain(p, s, ReadStep(p, s, t, e));
  }

  lemma StepPassesAgain(p: Params, s: System, e: Event)
    requires Passes(p, s) && KeepsPassing(p)
    ensures Passes(p, Step(p, s, e))
  {
    match e
    case OnStore(x) =>
      StoreStepGrowsFiles(p, s.store, x);
      StoreKeepsBodies(p, s.store, x);
      StoreChangePasses(p, s, StoreStep(p, s.store, x));
    case OnRoots(x) =>
      RootStepKeepsFiles(p, s.store, x);
      StoreChangePasses(p, s, RootStep(s.store, x));
    case ByCommit(t, c) => CommitPassesAgain(p, s, t, c);
    case ByCollector(t, c) => CollectPassesAgain(p, s, t, c);
    case ByReader(t, r) => ReadPassesAgain(p, s, t, r);
    case Crash =>
  }

  lemma {:induction false} RunPassesAgain(p: Params, s: System, events: seq<Event>)
    requires Passes(p, s) && KeepsPassing(p)
    ensures Passes(p, Run(p, s, events))
    decreases |events|
  {
    if events != [] {
      StepPassesAgain(p, s, events[0]);
      RunPassesAgain(p, Step(p, s, events[0]), events[1..]);
    }
  }

  /* ---------- exactly the safe inspectors ---------- */

  lemma SafeInspector(p: Params, events: seq<Event>, a: Id)
    requires KeepsPassing(p)
    ensures AvailablePasses(p, Run(p, START, events).store, a)
  {
    RunPassesAgain(p, START, events);
    RunKeeps(p, START, events);
    AvailableHasItsBody(p, events, a);
    var s := Run(p, START, events).store;
    if a in s.artifacts { assert RowOfUpload(s, a); }
  }

  lemma UnsafeInspector(p: Params, seen: Bytes, content: Bytes)
    requires Sha256Shape(p) && p.maxChunkBytes > 0
    requires seen <= content && |content| <= p.maxArtifactBytes && !p.secret(seen) && p.secret(content)
    ensures !AvailablePasses(p, Run(p, START, TornCommit(p, content, |seen|, ".")).store, 1)
  {
    assert content[..|seen|] == seen;
    assert seen != content;
    RejectedContentCanBecomeAvailable(p, content, |seen|, ".");
  }

  /** In every interleaving with crashes the inspector passes the body of every available artifact, exactly
      when none of its passing contents has an extension, within the size limit, that it rejects. */
  lemma AvailablePassesExactly(p: Params)
    requires Sha256Shape(p) && p.maxChunkBytes > 0
    ensures AvailableAlwaysPasses(p) <==> KeepsPassing(p)
  {
    if KeepsPassing(p) {
      forall events, a ensures AvailablePasses(p, Run(p, START, events).store, a) { SafeInspector(p, events, a); }
    } else {
      var seen, content :| seen <= content && |content| <= p.maxArtifactBytes && !p.secret(seen) && p.secret(content);
      UnsafeInspector(p, seen, content);
    }
  }
}
