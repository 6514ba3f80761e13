/** Readers beside everything else: the body is opened again after it was verified. */
module CasReads {
  import opened ArtifactRoots
  import opened ArtifactStore
  import opened CasProtocol
  import opened CasSafety
  import opened CasResults
  import opened CasInspection
  import opened CasInspector

  /** Every body under a valid name is named after its own digest, and uploads have valid digests. */
  ghost predicate Named(p: Params, s: Store) {
    && (forall u :: u in s.uploads ==> ValidDigest(p, s.uploads[u].digest))
    && (forall r :: r in s.bodies && ValidRef(r) ==> NamesItself(p, s, r))
  }

  predicate NamesItself(p: Params, s: Store, r: string)
    requires r in s.bodies
  {
    ValidDigest(p, p.digest(s.bodies[r])) && StorageRef(p.digest(s.bodies[r])) == r
  }

  ghost predicate NewUploadsAreValid(p: Params, s: Store, s': Store) {
    forall u :: u in s'.uploads && u !in s.uploads ==> ValidDigest(p, s'.uploads[u].digest)
  }

  ghost predicate NewBodiesAreNamed(p: Params, s: Store, s': Store) {
    forall r :: r in s'.bodies && ValidRef(r) ==>
      (r in s.bodies && s'.bodies[r] == s.bodies[r]) || NamesItself(p, s', r)
  }

  lemma NamedStays(p: Params, s: Store, s': Store)
    requires Named(p, s) && Ages(s, s') && NewUploadsAreValid(p, s, s') && NewBodiesAreNamed(p, s, s')
    ensures Named(p, s')
  {
    forall u | u in s'.uploads ensures ValidDigest(p, s'.uploads[u].digest) {
      if u in s.uploads { assert s'.uploads[u].digest == s.uploads[u].digest; }
    }
  }

  lemma StoreStepNames(p: Params, s: Store, e: StoreEvent)
    ensures NewUploadsAreValid(p, s, StoreStep(p, s, e)) && NewBodiesAreNamed(p, s, StoreStep(p, s, e))
  {
    StoreKeepsBodies(p, s, e);
    if e.ReconcileRows? { IssuesKeepUploads(p, s, e.issues); }
  }

  lemma RootStepNames(p: Params, s: Store, e: RootEvent)
    ensures NewUploadsAreValid(p, s, RootStep(s, e)) && NewBodiesAreNamed(p, s, RootStep(s, e))
  {
    RootStepFrame(s, e);
  }

  lemma LinkNames(p: Params, s: System, t: Id)
    requires Core(p, s) && Named(p, s.store)
    ensures NewBodiesAreNamed(p, s.store, LinkStep(p, s, t).store)
  {
    if t in s.threads { assert ThreadSound(p, s.store, s.threads[t]); }
  }

  lemma CopyNames(p: Params, s: System, t: Id, tmp: string)
    ensures NewBodiesAreNamed(p, s.store, CopyStep(p, s, t, tmp).store)
  {}

  lemma InspectNames(p: Params, s: System, t: Id, now: int)
    ensures NewBodiesAreNamed(p, s.store, InspectStep(p, s, t, now).store)
  {}

  lemma CommitStepNames(p: Params, s: System, t: Id, e: CommitEvent)
    requires Core(p, s) && Named(p, s.store)
    ensures NewBodiesAreNamed(p, s.store, CommitStep(p, s, t, e).store)
  {
    match e
    case LinkBody => LinkNames(p, s, t);
    case Copy(tmp) => CopyNames(p, s, t, tmp);
    case Inspect(now) => InspectNames(p, s, t, now);
    case _ => OtherCommitsWriteNothing(p, s, t, e);
  }

  lemma StepNames(p: Params, s: System, e: Event)
    requires Core(p, s) && Named(p, s.store)
    ensures Named(p, Step(p, s, e).store)
  {
    StepKeeps(p, s, e);
    StepNamesNew(p, s, e);
    NamedStays(p, s.store, Step(p, s, e).store);
  }

  lemma StepNamesNew(p: Params, s: System, e: Event)
    requires Core(p, s) && Named(p, s.store)
    ensures NewUploadsAreValid(p, s.store, Step(p, s, e).store)
    ensures NewBodiesAreNamed(p, s.store, Step(p, s, e).store)
  {
    match e
    case OnStore(x) => StoreStepNames(p, s.store, x);
    case OnRoots(x) => RootStepNames(p, s.store, x);
    case ByCommit(t, c) =>
      CommitStepNames(p, s, t, c);
      CommitStepGrowsFiles(p, s, t, c);
    case ByCollector(t, c) =>
      CollectWritesNothing(p, s, t, c);
      CollectUploads(p, s, t, c);
    case ByReader(t, r) => ReadWritesNothing(p, s, t, r);
    case Crash =>
  }

  lemma {:induction false} RunNames(p: Params, s: System, events: seq<Event>)
    requires Core(p, s) && Named(p, s.store)
    ensures Named(p, Run(p, s, events).store)
    decreases |events|
  {
    if events != [] {
      StepKeeps(p, s, events[0]);
      StepNames(p, s, events[0]);
      RunNames(p, Step(p, s, events[0]), events[1..]);
    }
  }

  /** A reader that has read a manifest and opens the body at any later moment, whatever collections, commits
      and crashes came in between, gets bytes of the recorded digest, or finds no body. */
  lemma ReadersGetTheRecordedDigest(p: Params, events: seq<Event>, later: seq<Event>, a: Id)
    ensures var s := Run(p, START, events);
            var x := Run(p, s, later).store;
            a in s.store.artifacts && s.store.artifacts[a].ref in x.bodies ==>
              p.digest(x.bodies[s.store.artifacts[a].ref]) == s.store.artifacts[a].digest
  {
    var s := Run(p, START, events);
    var x := Run(p, s, later).store;
    RunKeeps(p, START, events);
    RunNames(p, START, events);
    RunNames(p, s, later);
    if a in s.store.artifacts && s.store.artifacts[a].ref in x.bodies {
      var row := s.store.artifacts[a];
      assert RowOfUpload(s.store, a) && NamesItself(p, x, row.ref);
      StorageRefInjective(p, p.digest(x.bodies[row.ref]), row.digest);
    }
  }
}
