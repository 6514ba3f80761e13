/** Runs: what stays uncollected because a row keeps it, and where each artifact's sources come from. */
module CasRetention {
  import opened Outcomes
  import opened ArtifactRoots
  import opened ArtifactStore
  import opened Reconciliation
  import opened ArtifactRetention
  import opened CasProtocol
  import opened CasSafety
  import opened CasResults
  import opened CasUploads
  import opened CasInspector

  /* ---------- holds and pins ---------- */

  predicate SameRetainers(s: Store, s': Store) { s'.holds == s.holds && s'.pins == s.pins }

  predicate SameHolders(s: Store, s': Store) { SameRetainers(s, s') && s'.references == s.references }

  lemma {:induction false} IssuesKeepRetainers(s: Store, issues: seq<Issue>)
    ensures SameRetainers(s, ApplyRows(s, issues))
    decreases |issues|
  {
    if issues != [] {
      IssueKeepsRetainers(s, issues[0]);
      IssuesKeepRetainers(ApplyRow(s, issues[0]), issues[1..]);
    }
  }

  lemma IssueKeepsRetainers(s: Store, i: Issue)
    ensures SameRetainers(s, ApplyRow(s, i))
  {}

  lemma StoreStepKeepsRetainers(p: Params, s: Store, e: StoreEvent)
    ensures SameRetainers(s, StoreStep(p, s, e))
  {
    match e
    case Open(u, digest, size, sources, now) => OpenKeepsRetainers(p, s, u, digest, size, sources, now);
    case Append(u, offset, content, written, commits, now) =>
      AppendKeepsRetainers(p, s, u, offset, content, written, commits, now);
    case Abort(u, now, commits) => AbortKeepsRetainers(s, u, now, commits);
    case Expire(_) =>
    case ReconcileRows(issues) => IssuesKeepRetainers(s, issues);
  }

  lemma OpenKeepsRetainers(p: Params, s: Store, u: Id, digest: string, size: int, sources: seq<Id>, now: int)
    ensures SameRetainers(s, Or(s, OpenUpload(p, s, u, digest, size, sources, now)))
  {}

  lemma AppendKeepsRetainers(
    p: Params, s: Store, u: Id, offset: int, content: Bytes, written: nat, commits: bool, now: int)
    ensures SameRetainers(s, AppendChunk(p, s, u, offset, content, written, commits, now))
  {}

  lemma AbortKeepsRetainers(s: Store, u: Id, now: int, commits: bool)
    ensures SameRetainers(s, AbortStep(s, u, now, commits))
  {}

  lemma FirstStepsKeepRetainers(p: Params, s: System, t: Id, e: CommitEvent)
    requires e.BeginCommit? || e.Acquire? || e.ReadUpload? || e.Stat? || e.Recover?
    ensures SameHolders(s.store, CommitStep(p, s, t, e).store)
  {
    match e
    case BeginCommit(_) =>
    case Acquire =>
    case ReadUpload =>
    case Stat =>
    case Recover =>
  }

  lemma CommitStepKeepsRetainers(p: Params, s: System, t: Id, e: CommitEvent)
    ensures SameHolders(s.store, CommitStep(p, s, t, e).store)
  {
    match e
    case Inspect(now) => InspectKeepsRetainers(p, s, t, now);
    case Discard =>
    case Copy(tmp) => CopyKeepsRetainers(p, s, t, tmp);
    case LinkBody => LinkKeepsRetainers(p, s, t);
    case RemoveTemporary => RemoveKeepsRetainers(s, t);
    case Unstage => UnstageKeepsRetainers(s, t);
    case InsertRow(a, now) => InsertKeepsRetainers(s, t, a, now);
    case _ => FirstStepsKeepRetainers(p, s, t, e);
  }

  lemma InspectKeepsRetainers(p: Params, s: System, t: Id, now: int)
    ensures SameHolders(s.store, InspectStep(p, s, t, now).store)
  {}

  lemma CopyKeepsRetainers(p: Params, s: System, t: Id, tmp: string)
    ensures SameHolders(s.store, CopyStep(p, s, t, tmp).store)
  {}

  lemma LinkKeepsRetainers(p: Params, s: System, t: Id)
    ensures SameHolders(s.store, LinkStep(p, s, t).store)
  {}

  lemma RemoveKeepsRetainers(s: System, t: Id)
    ensures SameHolders(s.store, RemoveTemporaryStep(s, t).store)
  {
    var s' := RemoveTemporaryStep(s, t);
    if s' != s { assert s'.store == s.store || s'.store == DeleteBody(s.store, s.threads[t].pc.tmp); }
  }

  lemma UnstageKeepsRetainers(s: System, t: Id)
    ensures SameHolders(s.store, UnstageStep(s, t).store)
  {}

  lemma InsertKeepsRetainers(s: System, t: Id, a: Id, now: int)
    ensures SameHolders(s.store, InsertRowStep(s, t, a, now).store)
  {}

  lemma CollectStepKeepsRetainers(p: Params, s: System, t: Id, e: CollectEvent)
    ensures SameHolders(s.store, CollectStep(p, s, t, e).store)
  {
    match e
    case ApplyGc(_) =>
    case BeginOrphans(_) =>
    case NextRef(_) =>
    case Enter =>
    case CheckLive =>
    case RemoveBody =>
    case MarkDeleted =>
  }

  lemma ReadStepKeepsRetainers(p: Params, s: System, t: Id, e: ReadEvent)
    ensures SameHolders(s.store, ReadStep(p, s, t, e).store)
  {
    match e
    case BeginRead(_) =>
    case Observe =>
    case MarkRead =>
  }

  /** Neither commits nor collections nor reads, and no crash, touch what keeps artifacts. */
  lemma ThreadsKeepHolders(p: Params, s: System, e: Event)
    requires !e.OnStore? && !e.OnRoots?
    ensures SameHolders(s.store, Step(p, s, e).store)
  {
    match e
    case ByCommit(t, c) => CommitStepKeepsRetainers(p, s, t, c);
    case ByCollector(t, c) => CollectStepKeepsRetainers(p, s, t, c);
    case ByReader(t, r) => ReadStepKeepsRetainers(p, s, t, r);
    case Crash =>
  }

  /** Only its release takes a hold or a pin away, and a hold or pin of an existing artifact takes effect at once. */
  lemma StepKeepsRetainers(p: Params, s: System, e: Event, a: Id)
    ensures a in s.store.holds && e != OnRoots(ReleaseHold(a)) ==> a in Step(p, s, e).store.holds
    ensures a in s.store.pins && e != OnRoots(ReleasePin(a)) ==> a in Step(p, s, e).store.pins
  {
    match e
    case OnStore(x) => StoreStepKeepsRetainers(p, s.store, x);
    case OnRoots(x) => RootStepKeepsRetainers(s.store, x, a);
    case _ => ThreadsKeepHolders(p, s, e);
  }

  lemma RootStepKeepsRetainers(s: Store, e: RootEvent, a: Id)
    ensures a in s.holds && e != ReleaseHold(a) ==> a in RootStep(s, e).holds
    ensures a in s.pins && e != ReleasePin(a) ==> a in RootStep(s, e).pins
  {
    match e
    case Reference(k, b, expected) => ReferenceKeepsRetainers(s, k, b, expected);
    case PlanGc(plan, watermark, candidates) => PlanKeepsRetainers(s, plan, watermark, candidates);
    case _ => RetainerStepKeeps(s, e, a);
  }

  lemma ReferenceKeepsRetainers(s: Store, k: ReferenceKey, b: Id, expected: int)
    ensures SameRetainers(s, Or(s, UpdateReference(s, k, b, expected)))
  {}

  lemma PlanKeepsRetainers(s: Store, plan: Id, watermark: int, candidates: seq<Id>)
    ensures SameRetainers(s, PlanGcStep(s, plan, watermark, candidates))
  {}

  lemma RetainerStepKeeps(s: Store, e: RootEvent, a: Id)
    requires !e.Reference? && !e.PlanGc?
    ensures a in s.holds && e != ReleaseHold(a) ==> a in RootStep(s, e).holds
    ensures a in s.pins && e != ReleasePin(a) ==> a in RootStep(s, e).pins
  {
    match e
    case Hold(_, _) =>
    case ReleaseHold(_) =>
    case Pin(_) =>
    case ReleasePin(_) =>
    case Collection(_, _) =>
    case Evidence(_) =>
  }

  /** A hold takes an artifact that exists and keeps its first reason, a release gives it back, and nothing else is
      changed. */
  lemma HoldsMoveExactly(s: Store, a: Id, reason: string)
    ensures RootStep(s, Hold(a, reason))
              == if a in s.artifacts && a !in s.holds then s.(holds := s.holds[a := reason]) else s
    ensures RootStep(s, ReleaseHold(a)) == s.(holds := s.holds - {a})
  {}

  /** Pins are given and taken back so, too. */
  lemma PinsMoveExactly(s: Store, a: Id)
    ensures RootStep(s, Pin(a)) == if a in s.artifacts then s.(pins := s.pins + {a}) else s
    ensures RootStep(s, ReleasePin(a)) == s.(pins := s.pins - {a})
  {}

  /** The artifact is held, or pinned, and no event of the run takes that away. */
  predicate HeldThroughout(s: Store, events: seq<Event>, a: Id) {
    a in s.holds && forall i :: 0 <= i < |events| ==> events[i] != OnRoots(ReleaseHold(a))
  }

  predicate PinnedThroughout(s: Store, events: seq<Event>, a: Id) {
    a in s.pins && forall i :: 0 <= i < |events| ==> events[i] != OnRoots(ReleasePin(a))
  }

  lemma DerivationStays(p: Params, s: System, e: Event, path: seq<Id>)
    requires Core(p, s) && Derivation(s.store, path)
    ensures Derivation(Step(p, s, e).store, path)
  {
    StepKeeps(p, s, e);
    forall i | 0 <= i < |path| - 1
      ensures path[i] in Step(p, s, e).store.artifacts
      ensures path[i + 1] in Step(p, s, e).store.artifacts[path[i]].sources
    {
      assert RowAges(s.store.artifacts[path[i]], Step(p, s, e).store.artifacts[path[i]]);
    }
  }

  lemma {:induction false} RetainedRun(p: Params, s: System, events: seq<Event>, path: seq<Id>)
    requires Core(p, s) && Derivation(s.store, path)
    requires HeldThroughout(s.store, events, path[0]) || PinnedThroughout(s.store, events, path[0])
    ensures AlwaysRooted(p, s, events, path[|path| - 1])
    decreases |events|
  {
    assert KeepsAlong(s.store, path, path[|path| - 1]);
    SparedIsRooted(s.store, path[|path| - 1]);
    if events != [] {
      StepKeepsRetainers(p, s, events[0], path[0]);
      StepKeeps(p, s, events[0]);
      DerivationStays(p, s, events[0], path);
      RetainedRun(p, Step(p, s, events[0]), events[1..], path);
    }
  }

  predicate Uncollected(s: Store, a: Id) {
    a in s.artifacts && s.artifacts[a].lifecycle !in {Tombstoned, Deleted}
  }

  /** From its hold to the release of the hold, an artifact and everything that it was derived from stay
      uncollected, whatever plans exist. */
  lemma HeldIsNeverCollected(p: Params, before: seq<Event>, later: seq<Event>, reason: string, path: seq<Id>)
    requires Derivation(Run(p, START, before).store, path) && path[0] in Run(p, START, before).store.artifacts
    requires Uncollected(Run(p, START, before).store, path[|path| - 1])
    requires forall i :: 0 <= i < |later| ==> later[i] != OnRoots(ReleaseHold(path[0]))
    ensures Uncollected(Run(p, Step(p, Run(p, START, before), OnRoots(Hold(path[0], reason))), later).store,
                        path[|path| - 1])
  {
    RunKeeps(p, START, before);
    HoldTakes(p, Run(p, START, before), path[0], reason, later);
    KeptFromThen(p, Run(p, START, before), OnRoots(Hold(path[0], reason)), later, path);
  }

  /** The same from its pin to the release of the pin. */
  lemma PinnedIsNeverCollected(p: Params, before: seq<Event>, later: seq<Event>, path: seq<Id>)
    requires Derivation(Run(p, START, before).store, path) && path[0] in Run(p, START, before).store.artifacts
    requires Uncollected(Run(p, START, before).store, path[|path| - 1])
    requires forall i :: 0 <= i < |later| ==> later[i] != OnRoots(ReleasePin(path[0]))
    ensures Uncollected(Run(p, Step(p, Run(p, START, before), OnRoots(Pin(path[0]))), later).store, path[|path| - 1])
  {
    RunKeeps(p, START, before);
    PinTakes(p, Run(p, START, before), path[0], later);
    KeptFromThen(p, Run(p, START, before), OnRoots(Pin(path[0])), later, path);
  }

  lemma HoldTakes(p: Params, s: System, a: Id, reason: string, later: seq<Event>)
    requires a in s.store.artifacts && forall i :: 0 <= i < |later| ==> later[i] != OnRoots(ReleaseHold(a))
    ensures HeldThroughout(Step(p, s, OnRoots(Hold(a, reason))).store, later, a)
  {}

  lemma PinTakes(p: Params, s: System, a: Id, later: seq<Event>)
    requires a in s.store.artifacts && forall i :: 0 <= i < |later| ==> later[i] != OnRoots(ReleasePin(a))
    ensures PinnedThroughout(Step(p, s, OnRoots(Pin(a))).store, later, a)
  {}

  lemma KeptFromThen(p: Params, s: System, e: Event, later: seq<Event>, path: seq<Id>)
    requires Core(p, s) && Derivation(s.store, path) && e.OnRoots? && !e.roots.Reference?
    requires Uncollected(s.store, path[|path| - 1])
    requires var s' := Step(p, s, e).store; HeldThroughout(s', later, path[0]) || PinnedThroughout(s', later, path[0])
    ensures Uncollected(Run(p, Step(p, s, e), later).store, path[|path| - 1])
  {
    StepKeeps(p, s, e);
    DerivationStays(p, s, e, path);
    RootStepFrame(s.store, e.roots);
    RetainedRun(p, Step(p, s, e), later, path);
    RootedIsNeverCollected(p, Step(p, s, e), later, path[|path| - 1]);
  }

  /* ---------- where sources come from ---------- */

  predicate Opens(e: Event, u: Id, digest: string, size: nat, sources: seq<Id>) {
    && e.OnStore? && e.store.Open? && e.store.u == u
    && e.store.digest == digest && e.store.size == size && e.store.sources == sources
  }

  /** The event that opened the upload declared this digest, this size and these sources. */
  ghost predicate OpenedWith(p: Params, events: seq<Event>, u: Id, digest: string, size: nat, sources: seq<Id>) {
    exists n :: 0 <= n < |events| && Opens(events[n], u, digest, size, sources)
                && u !in Run(p, START, events[..n]).store.uploads
  }

  lemma NewUploadIsOpened(p: Params, s: System, e: Event, u: Id)
    requires u !in s.store.uploads && u in Step(p, s, e).store.uploads
    ensures var row := Step(p, s, e).store.uploads[u]; Opens(e, u, row.digest, row.size, row.sources)
  {
    match e
    case OnStore(x) => NewUploadIsFromOpen(p, s.store, x, u);
    case OnRoots(x) => RootStepFrame(s.store, x);
    case ByCommit(t, c) => CommitStepGrowsFiles(p, s, t, c);
    case ByCollector(t, c) => CollectUploads(p, s, t, c);
    case ByReader(t, r) =>
    case Crash =>
  }

  lemma NewUploadIsFromOpen(p: Params, s: Store, x: StoreEvent, u: Id)
    requires u !in s.uploads && u in StoreStep(p, s, x).uploads
    ensures var row := StoreStep(p, s, x).uploads[u]; Opens(OnStore(x), u, row.digest, row.size, row.sources)
  {
    match x
    case Open(v, digest, size, sources, now) =>
    case Append(_, _, _, _, _, _) =>
    case Abort(_, _, _) =>
    case Expire(_) =>
    case ReconcileRows(issues) => IssuesKeepUploads(p, s, issues);
  }

  lemma {:induction false} UploadsAreOpened(p: Params, events: seq<Event>, u: Id)
    requires u in Run(p, START, events).store.uploads
    ensures var row := Run(p, START, events).store.uploads[u];
            OpenedWith(p, events, u, row.digest, row.size, row.sources)
    decreases |events|
  {
    if events != [] {
      var m := |events| - 1;
      var earlier, e := events[..m], events[m];
      var s := Run(p, START, earlier);
      assert events == earlier + [e];
      RunAppend(p, START, earlier, [e]);
      RunOne(p, s, e);
      RunKeeps(p, START, earlier);
      StepKeeps(p, s, e);
      if u in s.store.uploads {
        UploadsAreOpened(p, earlier, u);
        var row := s.store.uploads[u];
        var n :| 0 <= n < |earlier| && Opens(earlier[n], u, row.digest, row.size, row.sources)
                 && u !in Run(p, START, earlier[..n]).store.uploads;
        assert events[..n] == earlier[..n] && events[n] == earlier[n];
      } else {
        NewUploadIsOpened(p, s, e, u);
        assert events[..m] == earlier;
      }
    }
  }

  /** In every interleaving with crashes each artifact has the digest, the size and the sources that its upload was
      opened with. */
  lemma SourcesAreThoseOfTheUpload(p: Params, events: seq<Event>, a: Id)
    requires a in Run(p, START, events).store.artifacts
    ensures var row := Run(p, START, events).store.artifacts[a];
            OpenedWith(p, events, row.origin, row.digest, row.size, row.sources)
  {
    RunKeeps(p, START, events);
    var s := Run(p, START, events).store;
    assert RowOfUpload(s, a);
    UploadsAreOpened(p, events, s.artifacts[a].origin);
  }

  /* ---------- references remember ---------- */

  /** The row is as it was, or has just moved on by one revision, remembering what it was, or is new. */
  predicate Remembers(s: Store, s': Store, k: ReferenceKey) {
    k in s'.references ==>
      || (k in s.references && s'.references[k] == s.references[k])
      || (k in s.references && s'.references[k].revision == s.references[k].revision + 1
          && s'.references[k].prior == Some((s.references[k].artifactId, s.references[k].revision)))
      || (k !in s.references && s'.references[k].revision == 1 && s'.references[k].prior == None)
  }

  /** References only go. */
  predicate OnlyDrops(s: Store, s': Store, k: ReferenceKey) {
    k in s'.references ==> k in s.references && s'.references[k] == s.references[k]
  }

  lemma {:induction false} IssuesOnlyDrop(s: Store, issues: seq<Issue>, k: ReferenceKey)
    ensures OnlyDrops(s, ApplyRows(s, issues), k)
    decreases |issues|
  {
    if issues != [] {
      IssueOnlyDrops(s, issues[0], k);
      IssuesOnlyDrop(ApplyRow(s, issues[0]), issues[1..], k);
    }
  }

  lemma IssueOnlyDrops(s: Store, i: Issue, k: ReferenceKey)
    ensures OnlyDrops(s, ApplyRow(s, i), k)
  {}

  lemma StoreStepOnlyDrops(p: Params, s: Store, e: StoreEvent, k: ReferenceKey)
    ensures OnlyDrops(s, StoreStep(p, s, e), k)
  {
    match e
    case Open(u, digest, size, sources, now) =>
    case Append(_, _, _, _, _, _) =>
    case Abort(_, _, _) =>
    case Expire(_) =>
    case ReconcileRows(issues) => IssuesOnlyDrop(s, issues, k);
  }

  lemma MovesRemember(s: Store, key: ReferenceKey, a: Id, expected: int, k: ReferenceKey)
    ensures Remembers(s, Or(s, UpdateReference(s, key, a, expected)), k)
  {}

  lemma RootStepRemembers(s: Store, e: RootEvent, k: ReferenceKey)
    ensures Remembers(s, RootStep(s, e), k)
  {
    if e.Reference? { MovesRemember(s, e.key, e.a, e.expected, k); } else { RootStepFrame(s, e); }
  }

  lemma StepRemembers(p: Params, s: System, e: Event, k: ReferenceKey)
    ensures Remembers(s.store, Step(p, s, e).store, k)
  {
    match e
    case OnStore(x) => StoreStepOnlyDrops(p, s.store, x, k);
    case OnRoots(x) => RootStepRemembers(s.store, x, k);
    case _ => ThreadsKeepHolders(p, s, e);
  }

  /** At some earlier moment the reference had this target and this revision. */
  ghost predicate HadTarget(p: Params, events: seq<Event>, k: ReferenceKey, a: Id, revision: nat) {
    exists n :: 0 <= n < |events| && TargetThen(Run(p, START, events[..n]).store, k, a, revision)
  }

  predicate TargetThen(s: Store, k: ReferenceKey, a: Id, revision: nat) {
    k in s.references && s.references[k].artifactId == a && s.references[k].revision == revision
  }

  /** In every run a reference at its first revision has no prior target, and a later one names the target that it
      had at the revision before. */
  lemma {:induction false} PriorIsThePreviousTarget(p: Params, events: seq<Event>, k: ReferenceKey)
    requires k in Run(p, START, events).store.references
    ensures var row := Run(p, START, events).store.references[k];
            && row.revision >= 1
            && (row.prior.None? <==> row.revision == 1)
            && (row.prior.Some? ==> row.prior.value.1 + 1 == row.revision
                                    && HadTarget(p, events, k, row.prior.value.0, row.prior.value.1))
    decreases |events|
  {
    if events != [] {
      var m := |events| - 1;
      var earlier, e := events[..m], events[m];
      var s := Run(p, START, earlier);
      assert events == earlier + [e] && events[..m] == earlier;
      RunAppend(p, START, earlier, [e]);
      RunOne(p, s, e);
      StepRemembers(p, s, e, k);
      if k in s.store.references {
        PriorIsThePreviousTarget(p, earlier, k);
        var row := s.store.references[k];
        assert TargetThen(Run(p, START, events[..m]).store, k, row.artifactId, row.revision);
        if row.prior.Some? {
          var n :| 0 <= n < |earlier|
                   && TargetThen(Run(p, START, earlier[..n]).store, k, row.prior.value.0, row.prior.value.1);
          assert events[..n] == earlier[..n];
        }
      }
    }
  }
}
