/** The hidden copy of a publication that crashes: no step ever removes it, and no reconciliation
    plan made while it lies there can be applied. */
module CasStrays {
  import opened ArtifactRoots
  import opened ArtifactStore
  import opened Reconciliation
  import opened ReconciliationReplay
  import opened CasProtocol
  import opened CasSafety
  import opened CasResults
  import opened CasSchedule
  import opened CasUploads

  /* ---------- the name ---------- */

  /** The hidden name that a publication to `ref` uses: its file name between a dot and a suffix. */
  function TemporaryName(ref: string, id: string): string
    requires ValidRef(ref)
  {
    ref[..10] + ("." + ref[10..] + "." + id + ".tmp")
  }

  /** The blob listing shows every such name, and the body store refuses each of them. */
  lemma TemporaryIsListedAndRefused(ref: string, id: string)
    requires ValidRef(ref) && '/' !in id
    ensures Listed(TemporaryName(ref, id)) && !ValidRef(TemporaryName(ref, id))
  {
    var tail := "." + ref[10..] + "." + id + ".tmp";
    var tmp := TemporaryName(ref, id);
    assert tmp[10..] == tail && tmp[..7] == ref[..7];
    forall i | 0 <= i < |ref[10..]| ensures ref[10..][i] != '/' { assert ref[10 + i] == ref[10..][i]; }
    assert '/' !in "." && '/' !in ".tmp" && '/' !in ref[10..];
    assert tmp[10] == '.';
  }

  /* ---------- temporaries in the protocol ---------- */

  predicate Carries(th: Thread) { th.Commit? && (th.pc.Copied? || th.pc.Linked? || th.pc.Spoiled?) }

  /** Each hidden copy is there, has no valid name, and belongs to one thread. */
  ghost predicate Temporaries(s: System) {
    && (forall t :: t in s.threads && Carries(s.threads[t]) ==>
          s.threads[t].pc.tmp in s.store.bodies && !ValidRef(s.threads[t].pc.tmp))
    && (forall t, u :: t in s.threads && u in s.threads && t != u && Carries(s.threads[t]) && Carries(s.threads[u]) ==>
          s.threads[t].pc.tmp != s.threads[u].pc.tmp)
  }

  /** A hidden copy that no thread knows of. */
  ghost predicate Stray(s: System, tmp: string) {
    && tmp in s.store.bodies && !ValidRef(tmp)
    && forall t :: t in s.threads && Carries(s.threads[t]) ==> s.threads[t].pc.tmp != tmp
  }

  /** Bodies with invalid names stay, and no thread comes to carry one. */
  ghost predicate Lets(s: System, s': System) {
    && (forall r :: r in s.store.bodies && !ValidRef(r) ==> r in s'.store.bodies)
    && (forall t :: t in s'.threads && Carries(s'.threads[t]) ==>
          t in s.threads && Carries(s.threads[t]) && s'.threads[t].pc.tmp == s.threads[t].pc.tmp)
  }

  lemma LetsKeep(s: System, s': System, tmp: string)
    requires Lets(s, s')
    ensures Temporaries(s) ==> Temporaries(s')
    ensures Stray(s, tmp) ==> Stray(s', tmp)
  {}

  lemma CopyKeepsTemporaries(p: Params, s: System, t: Id, tmp': string, tmp: string)
    ensures Temporaries(s) ==> Temporaries(CopyStep(p, s, t, tmp'))
    ensures Stray(s, tmp) ==> Stray(CopyStep(p, s, t, tmp'), tmp)
  {}

  lemma RemoveKeepsTemporaries(s: System, t: Id, tmp: string)
    requires Temporaries(s)
    ensures Temporaries(RemoveTemporaryStep(s, t))
    ensures Stray(s, tmp) ==> Stray(RemoveTemporaryStep(s, t), tmp)
  {}

  lemma LinkLets(p: Params, s: System, t: Id)
    ensures Lets(s, LinkStep(p, s, t))
  {}

  lemma FirstStepsLet(p: Params, s: System, t: Id, e: CommitEvent)
    requires e.BeginCommit? || e.Acquire? || e.ReadUpload? || e.Stat? || e.Recover?
    ensures Lets(s, CommitStep(p, s, t, e))
  {
    match e
    case BeginCommit(_) =>
    case Acquire =>
    case ReadUpload =>
    case Stat =>
    case Recover =>
  }

  lemma OtherCommitsLet(p: Params, s: System, t: Id, e: CommitEvent)
    requires !e.Copy? && !e.LinkBody? && !e.RemoveTemporary?
    ensures Lets(s, CommitStep(p, s, t, e))
  {
    match e
    case Inspect(_) =>
    case Discard =>
    case Unstage =>
    case InsertRow(_, _) =>
    case _ => FirstStepsLet(p, s, t, e);
  }

  lemma CollectLets(p: Params, s: System, t: Id, e: CollectEvent)
    ensures Lets(s, CollectStep(p, s, t, e))
  {
    match e
    case ApplyGc(_) =>
    case BeginOrphans(_) =>
    case NextRef(_) =>
    case Enter =>
    case CheckLive =>
    case RemoveBody =>
    case MarkDeleted =>
  }

  lemma ReadLets(p: Params, s: System, t: Id, e: ReadEvent)
    ensures Lets(s, ReadStep(p, s, t, e))
  {}

  lemma StepKeepsStrays(p: Params, s: System, e: Event, tmp: string)
    requires Temporaries(s)
    ensures Temporaries(Step(p, s, e))
    ensures Stray(s, tmp) ==> Stray(Step(p, s, e), tmp)
  {
    match e
    case OnStore(e) => StoreKeepsBodies(p, s.store, e);
    case OnRoots(e) => RootStepFrame(s.store, e);
    case ByCommit(t, c) =>
      if c.Copy? {
        CopyKeepsTemporaries(p, s, t, c.tmp, tmp);
      } else if c.RemoveTemporary? {
        RemoveKeepsTemporaries(s, t, tmp);
      } else {
        if c.LinkBody? { LinkLets(p, s, t); } else { OtherCommitsLet(p, s, t, c); }
        LetsKeep(s, CommitStep(p, s, t, c), tmp);
      }
    case ByCollector(t, c) =>
      CollectLets(p, s, t, c);
      LetsKeep(s, CollectStep(p, s, t, c), tmp);
    case ByReader(t, r) =>
      ReadLets(p, s, t, r);
      LetsKeep(s, ReadStep(p, s, t, r), tmp);
    case Crash =>
  }

  lemma {:induction false} RunKeepsStrays(p: Params, s: System, events: seq<Event>, tmp: string)
    requires Temporaries(s)
    ensures Temporaries(Run(p, s, events))
    ensures Stray(s, tmp) ==> Stray(Run(p, s, events), tmp)
    decreases |events|
  {
    if events != [] {
      StepKeepsStrays(p, s, events[0], tmp);
      RunKeepsStrays(p, Step(p, s, events[0]), events[1..], tmp);
    }
  }

  /* ---------- no reconciliation any more ---------- */

  lemma StrayIsUnclaimed(p: Params, s: System, tmp: string)
    requires Core(p, s) && Stray(s, tmp) && Listed(tmp)
    ensures Unclaimed(s.store, tmp) && !NoStrays(s.store)
  {
    forall a | a in s.store.artifacts ensures s.store.artifacts[a].ref != tmp { assert RowOfUpload(s.store, a); }
  }

  function Recorded(s: Store, plan: Id, made: int, issues: seq<Issue>): Store {
    s.(plans := s.plans[plan := ReconcilePlan(issues, made, false)])
  }

  lemma PlansAreNotDiagnosed(p: Params, s: Store, plan: Id, made: int, issues: seq<Issue>)
    requires IsPlan(p, s, made, issues)
    ensures Planned(p, Recorded(s, plan, made, issues), plan)
    ensures NoStrays(Recorded(s, plan, made, issues)) <==> NoStrays(s)
  {
    var s' := Recorded(s, plan, made, issues);
    assert Unavailable(p, s') == Unavailable(p, s);
    forall i ensures Diagnosed(p, s', made, i) <==> Diagnosed(p, s, made, i) { SameDiagnosis(p, s, s', made, i); }
  }

  lemma SameDiagnosis(p: Params, s: Store, s': Store, now: int, i: Issue)
    requires s' == s.(plans := s'.plans)
    ensures Diagnosed(p, s', now, i) <==> Diagnosed(p, s, now, i)
  {
    assert Unavailable(p, s') == Unavailable(p, s);
  }

  lemma StrayRefuses(p: Params, x: Store, plan: Id, made: int, issues: seq<Issue>)
    requires !NoStrays(x) && IsPlan(p, x, made, issues)
    ensures Accepted(p, Recorded(x, plan, made, issues), made, issues)
    ensures Apply(p, Recorded(x, plan, made, issues), plan).1.Refused?
  {
    PlansAreNotDiagnosed(p, x, plan, made, issues);
    ReplanFindsOnlyExpired(p, Recorded(x, plan, made, issues), plan, made, AbortExpired(0));
  }

  /** A publication that crashes with its hidden copy written blocks reconciliation for ever: whatever runs
      afterwards, the copy is still listed and unclaimed, and every plan that is made is accepted by its
      validator and then refused. */
  lemma CrashedPublicationBlocksReconciliation(p: Params, events: seq<Event>, t: Id, later: seq<Event>)
    requires t in Run(p, START, events).threads && Carries(Run(p, START, events).threads[t])
    requires Listed(Run(p, START, events).threads[t].pc.tmp)
    ensures var tmp := Run(p, START, events).threads[t].pc.tmp;
            var x := Run(p, Step(p, Run(p, START, events), Crash), later).store;
            && tmp in x.bodies && Unclaimed(x, tmp) && !NoStrays(x)
            && forall plan, made, issues :: IsPlan(p, x, made, issues) ==>
                 && Accepted(p, Recorded(x, plan, made, issues), made, issues)
                 && Apply(p, Recorded(x, plan, made, issues), plan).1.Refused?
  {
    StrayStays(p, events, t, later);
    var x := Run(p, Step(p, Run(p, START, events), Crash), later);
    StrayIsUnclaimed(p, x, Run(p, START, events).threads[t].pc.tmp);
    forall plan, made, issues | IsPlan(p, x.store, made, issues)
      ensures Accepted(p, Recorded(x.store, plan, made, issues), made, issues)
      ensures Apply(p, Recorded(x.store, plan, made, issues), plan).1.Refused?
    {
      StrayRefuses(p, x.store, plan, made, issues);
    }
  }

  lemma StrayStays(p: Params, events: seq<Event>, t: Id, later: seq<Event>)
    requires t in Run(p, START, events).threads && Carries(Run(p, START, events).threads[t])
    ensures var s := Run(p, START, events);
            var x := Run(p, Step(p, s, Crash), later);
            Core(p, x) && Stray(x, s.threads[t].pc.tmp)
  {
    var s := Run(p, START, events);
    var crashed := Step(p, s, Crash);
    RunKeepsStrays(p, START, events, s.threads[t].pc.tmp);
    RunKeeps(p, START, events);
    StepKeeps(p, s, Crash);
    RunKeepsStrays(p, crashed, later, s.threads[t].pc.tmp);
    RunKeeps(p, crashed, later);
  }

  /** Such states are reached: every upload that can be stored passes through one, under the very name that
      the publication uses. */
  lemma StorableUploadCarries(p: Params, s: Store, t: Id, u: Id, id: string, now: int)
    requires u in s.uploads && s.uploads[u].state == UploadStaging && u in s.staging && '/' !in id
    requires ValidRef(StorageRef(s.uploads[u].digest)) && !p.secret(s.staging[u])
    requires Matches(p, s.staging[u], s.uploads[u].digest, s.uploads[u].size)
    requires TemporaryName(StorageRef(s.uploads[u].digest), id) !in s.bodies
    ensures var tmp := TemporaryName(StorageRef(s.uploads[u].digest), id);
            var x := Run(p, System(s, map[]), Lifted(t, Entering(u) + Inspecting(now) + [Copy(tmp)]));
            t in x.threads && Carries(x.threads[t]) && x.threads[t].pc.tmp == tmp && Listed(tmp)
  {
    var tmp := TemporaryName(StorageRef(s.uploads[u].digest), id);
    TemporaryIsListedAndRefused(StorageRef(s.uploads[u].digest), id);
    RunIsSteps(p, System(s, map[]), t, Entering(u) + Inspecting(now) + [Copy(tmp)]);
    StepsSplit(p, System(s, map[]), t, Entering(u) + Inspecting(now), [Copy(tmp)]);
    ReachesInspected(p, s, t, u, now);
    Copies(p, s, t, u, tmp);
    OneStep(p, Alone(s, t, Fresh(s, u, Inspected(|s.staging[u]|, s.staging[u]))), t, Copy(tmp));
  }

  lemma ReachesInspected(p: Params, s: Store, t: Id, u: Id, now: int)
    requires u in s.uploads && s.uploads[u].state == UploadStaging && u in s.staging && !p.secret(s.staging[u])
    ensures Steps(p, System(s, map[]), t, Entering(u) + Inspecting(now))
            == Alone(s, t, Fresh(s, u, Inspected(|s.staging[u]|, s.staging[u])))
  {
    StepsSplit(p, System(s, map[]), t, Entering(u), Inspecting(now));
    Enters(p, s, t, u);
    Inspects(p, s, t, u, now);
  }

  /** From the start: an upload of any content that the inspector passes, and its commit up to the copy. */
  function UploadedAndCopied(p: Params, c: Bytes, id: string, now: int): seq<Event>
    requires p.maxChunkBytes > 0 && ValidRef(StorageRef(p.digest(c)))
  {
    Opening(p, c, |c|)
    + Lifted(0, Entering(0) + Inspecting(now) + [Copy(TemporaryName(StorageRef(p.digest(c)), id))])
  }

  /** Uploading any content that can be stored, with a crash after the hidden copy was written, blocks
      reconciliation for ever. */
  lemma AnyUploadCanBlockReconciliation(p: Params, c: Bytes, id: string, now: int, later: seq<Event>)
    requires |c| <= p.maxArtifactBytes && p.maxChunkBytes > 0 && !p.secret(c) && '/' !in id
    requires ValidDigest(p, p.digest(c)) && ValidRef(StorageRef(p.digest(c)))
    ensures var tmp := TemporaryName(StorageRef(p.digest(c)), id);
            var x := Run(p, Step(p, Run(p, START, UploadedAndCopied(p, c, id, now)), Crash), later).store;
            && tmp in x.bodies && Unclaimed(x, tmp) && !NoStrays(x)
            && forall plan, made, issues :: IsPlan(p, x, made, issues) ==>
                 && Accepted(p, Recorded(x, plan, made, issues), made, issues)
                 && Apply(p, Recorded(x, plan, made, issues), plan).1.Refused?
  {
    UploadReachesCopy(p, c, id, now);
    CrashedPublicationBlocksReconciliation(p, UploadedAndCopied(p, c, id, now), 0, later);
  }

  lemma UploadReachesCopy(p: Params, c: Bytes, id: string, now: int)
    requires |c| <= p.maxArtifactBytes && p.maxChunkBytes > 0 && !p.secret(c) && '/' !in id
    requires ValidDigest(p, p.digest(c)) && ValidRef(StorageRef(p.digest(c)))
    ensures var tmp := TemporaryName(StorageRef(p.digest(c)), id);
            var x := Run(p, START, UploadedAndCopied(p, c, id, now));
            0 in x.threads && Carries(x.threads[0]) && x.threads[0].pc.tmp == tmp && Listed(tmp)
  {
    var tmp := TemporaryName(StorageRef(p.digest(c)), id);
    assert c[..|c|] == c;
    Uploads(p, c, |c|);
    StorableUploadCarries(p, Uploading(p, c, c), 0, 0, id, now);
    RunAppend(p, START, Opening(p, c, |c|), Lifted(0, Entering(0) + Inspecting(now) + [Copy(tmp)]));
  }
}
