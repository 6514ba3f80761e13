/** The protocol's guarantees over whole runs, from an empty store. */
module CasResults {
  import opened Outcomes
  import opened ArtifactRoots
  import opened ArtifactStore
  import opened CasProtocol
  import opened CasSafety

  const START := System(EMPTY, map[])

  lemma {:induction false} RunKeeps(p: Params, s: System, events: seq<Event>)
    requires Core(p, s)
    ensures Core(p, Run(p, s, events))
    decreases |events|
  {
    if events != [] {
      StepKeeps(p, s, events[0]);
      RunKeeps(p, Step(p, s, events[0]), events[1..]);
    }
  }

  /* ---------- bodies ---------- */

  /** However commits, collections, orphan deletions, reads and crashes interleave, an available
      artifact has a body of exactly its recorded digest and size at its reference. */
  lemma AvailableHasItsBody(p: Params, events: seq<Event>, a: Id)
    ensures var s := Run(p, START, events).store;
            a in s.artifacts && s.artifacts[a].lifecycle == Available ==>
              && s.artifacts[a].ref == StorageRef(s.artifacts[a].digest)
              && s.artifacts[a].ref in s.bodies
              && p.digest(s.bodies[s.artifacts[a].ref]) == s.artifacts[a].digest
              && |s.bodies[s.artifacts[a].ref]| == s.artifacts[a].size
  {
    RunKeeps(p, START, events);
    var s := Run(p, START, events).store;
    if a in s.artifacts && s.artifacts[a].lifecycle == Available {
      assert Live(s.artifacts[a]) && RowOfUpload(s, a);
    }
  }

  /** Chunk writes that a crash cut off from their cursor never surface: what was uploaded as
      the digest of `content` is stored, if at all, as `content`, unless the digest collides. */
  lemma CommittedContentIsTheUploads(p: Params, events: seq<Event>, a: Id, content: Bytes)
    requires forall other :: p.digest(other) == p.digest(content) ==> other == content
    ensures var s := Run(p, START, events).store;
            && (a in s.artifacts ==> s.artifacts[a].origin in s.uploads)
            && (a in s.artifacts && s.artifacts[a].lifecycle == Available
                && s.uploads[s.artifacts[a].origin].digest == p.digest(content) ==>
                  s.artifacts[a].ref in s.bodies && s.bodies[s.artifacts[a].ref] == content)
  {
    RunKeeps(p, START, events);
    AvailableHasItsBody(p, events, a);
    var s := Run(p, START, events).store;
    if a in s.artifacts { assert RowOfUpload(s, a); }
  }

  /* ---------- one artifact per upload ---------- */

  /** No upload ever yields two artifacts. */
  lemma OneArtifactPerUpload(p: Params, events: seq<Event>, a: Id, b: Id)
    ensures var s := Run(p, START, events).store;
            a in s.artifacts && b in s.artifacts && s.artifacts[a].origin == s.artifacts[b].origin ==> a == b
  {
    RunKeeps(p, START, events);
    var s := Run(p, START, events).store;
    if a in s.artifacts && b in s.artifacts { assert RowOfUpload(s, a) && RowOfUpload(s, b); }
  }

  /** An upload keeps the artifact it was committed as. */
  lemma {:induction false} RunKeepsArtifactId(p: Params, s: System, events: seq<Event>, u: Id)
    requires Core(p, s) && u in s.store.uploads && s.store.uploads[u].artifactId.Some?
    ensures u in Run(p, s, events).store.uploads
    ensures Run(p, s, events).store.uploads[u].artifactId == s.store.uploads[u].artifactId
    decreases |events|
  {
    if events != [] {
      StepKeeps(p, s, events[0]);
      RunKeepsArtifactId(p, Step(p, s, events[0]), events[1..], u);
    }
  }

  /** Once a commit of `u` has returned `a`, every commit of `u` that ever returns, after any
      number of crashes and retries, returns `a`. */
  lemma RetriesReturnTheSameArtifact(
    p: Params, before: seq<Event>, after: seq<Event>, t: Id, t': Id, u: Id, a: Id, b: Id)
    requires t in Run(p, START, before).threads && Run(p, START, before).threads[t] == Done(u, Some(a))
    requires t' in Run(p, Run(p, START, before), after).threads
    requires Run(p, Run(p, START, before), after).threads[t'] == Done(u, Some(b))
    ensures a == b
  {
    RunKeeps(p, START, before);
    var s := Run(p, START, before);
    assert ThreadSound(p, s.store, s.threads[t]);
    RunKeepsArtifactId(p, s, after, u);
    RunKeeps(p, s, after);
    var s' := Run(p, s, after);
    assert ThreadSound(p, s'.store, s'.threads[t']);
  }

  /* ---------- garbage collection ---------- */

  /** Rows outlive every run with digest, size, reference, sources and origin unchanged, and
      nothing ever becomes available again. */
  lemma {:induction false} NothingIsRevived(p: Params, s: System, events: seq<Event>, a: Id)
    requires Core(p, s) && a in s.store.artifacts
    ensures a in Run(p, s, events).store.artifacts
    ensures RowAges(s.store.artifacts[a], Run(p, s, events).store.artifacts[a])
    decreases |events|
  {
    if events != [] {
      StepKeeps(p, s, events[0]);
      NothingIsRevived(p, Step(p, s, events[0]), events[1..], a);
      assert RowAges(s.store.artifacts[a], Step(p, s, events[0]).store.artifacts[a]);
    }
  }

  /** `a` is reachable from the roots in every state of the run. */
  ghost predicate AlwaysRooted(p: Params, s: System, events: seq<Event>, a: Id)
    decreases |events|
  {
    a in RootedArtifacts(s.store) && (events != [] ==> AlwaysRooted(p, Step(p, s, events[0]), events[1..], a))
  }

  /** No plan, however old, collects what stayed reachable. */
  lemma {:induction false} RootedIsNeverCollected(p: Params, s: System, events: seq<Event>, a: Id)
    requires Core(p, s) && a in s.store.artifacts && !Collected(s.store.artifacts[a])
    requires AlwaysRooted(p, s, events, a)
    ensures a in Run(p, s, events).store.artifacts && !Collected(Run(p, s, events).store.artifacts[a])
    decreases |events|
  {
    if events != [] {
      StepKeeps(p, s, events[0]);
      RootedIsNeverCollected(p, Step(p, s, events[0]), events[1..], a);
    }
  }

  ghost predicate TargetsKept(s: Store) {
    forall k :: k in s.references ==>
      s.references[k].artifactId in s.artifacts && !Collected(s.artifacts[s.references[k].artifactId])
  }

  lemma ReferenceIsRooted(s: Store, k: ReferenceKey)
    requires k in s.references
    ensures s.references[k].artifactId in RootedArtifacts(s)
  {
    RootedIsClosed(ProvenanceEdges(s), DirectRoots(s));
    assert s.references[k].artifactId in DirectRoots(s);
  }

  lemma StepKeepsTargets(p: Params, s: System, e: Event)
    requires Core(p, s) && TargetsKept(s.store)
    ensures TargetsKept(Step(p, s, e).store)
  {
    StepKeeps(p, s, e);
    var s' := Step(p, s, e).store;
    forall k | k in s'.references
      ensures s'.references[k].artifactId in s'.artifacts && !Collected(s'.artifacts[s'.references[k].artifactId])
    {
      if k in s.store.references && s.store.references[k].artifactId == s'.references[k].artifactId {
        ReferenceIsRooted(s.store, k);
      }
    }
  }

  lemma {:induction false} RunKeepsTargets(p: Params, s: System, events: seq<Event>)
    requires Core(p, s) && TargetsKept(s.store)
    ensures TargetsKept(Run(p, s, events).store)
    decreases |events|
  {
    if events != [] {
      StepKeepsTargets(p, s, events[0]);
      StepKeeps(p, s, events[0]);
      RunKeepsTargets(p, Step(p, s, events[0]), events[1..]);
    }
  }

  /** In every reachable state a working reference targets a row that is neither tombstoned nor
      deleted. */
  lemma ReferencesNeverDangle(p: Params, events: seq<Event>, key: ReferenceKey)
    ensures var s := Run(p, START, events).store;
            key in s.references ==>
              && s.references[key].artifactId in s.artifacts
              && s.artifacts[s.references[key].artifactId].lifecycle !in {Tombstoned, Deleted}
  {
    RunKeepsTargets(p, START, events);
  }

  lemma RootedRefuses(s: Store, plan: Id, a: Id)
    requires plan in s.gcPlans && !s.gcPlans[plan].applied && a in RootedArtifacts(s)
    ensures a in s.gcPlans[plan].candidates ==> Tombstone(s, plan) == Refused(RevisionMismatch)
  {}

  lemma CandidateIsGone(s: Store, plan: Id, a: Id)
    requires plan in s.gcPlans && !s.gcPlans[plan].applied && Tombstone(s, plan).Ok?
    requires a in s.gcPlans[plan].candidates && a in Tombstone(s, plan).value.artifacts
    ensures Tombstone(s, plan).value.artifacts[a].lifecycle != Available
  {}

  lemma OthersStay(s: Store, plan: Id, a: Id)
    requires plan in s.gcPlans && !s.gcPlans[plan].applied && Tombstone(s, plan).Ok?
    requires a in s.artifacts && a !in s.gcPlans[plan].candidates
    ensures a in Tombstone(s, plan).value.artifacts && Tombstone(s, plan).value.artifacts[a] == s.artifacts[a]
  {}

  /** Applying a plan tombstones all of its available candidates or, when any candidate has
      become reachable, changes nothing; what a provenance path leads to keeps its row. */
  lemma CollectionIsAllOrNothing(s: Store, plan: Id, path: seq<Id>)
    requires plan in s.gcPlans && !s.gcPlans[plan].applied
    requires IsPath(ProvenanceEdges(s), DirectRoots(s), path)
    ensures path[|path| - 1] in s.gcPlans[plan].candidates ==> Tombstone(s, plan) == Refused(RevisionMismatch)
    ensures Tombstone(s, plan).Ok? ==>
              var s' := Tombstone(s, plan).value;
              && (forall a :: a in s.gcPlans[plan].candidates && a in s'.artifacts ==>
                    s'.artifacts[a].lifecycle != Available)
              && (path[|path| - 1] in s.artifacts ==> s'.artifacts[path[|path| - 1]] == s.artifacts[path[|path| - 1]])
  {
    RootedRefuses(s, plan, path[|path| - 1]);
    if Tombstone(s, plan).Ok? {
      forall a | a in s.gcPlans[plan].candidates && a in Tombstone(s, plan).value.artifacts
        ensures Tombstone(s, plan).value.artifacts[a].lifecycle != Available
      {
        CandidateIsGone(s, plan, a);
      }
      if path[|path| - 1] in s.artifacts { OthersStay(s, plan, path[|path| - 1]); }
    }
  }
}
