/** One caller alone: the atomic pieces of a commit, in order, are the commit of the service. */
module CasSchedule {
  import opened Outcomes
  import opened ArtifactRoots
  import opened ArtifactStore
  import opened CasProtocol
  import Calls = ArtifactCalls

  /** The phases of a commit. A piece that does not apply changes nothing. */
  function Entering(u: Id): seq<CommitEvent> { [BeginCommit(u), Acquire, ReadUpload, Recover] }

  function Inspecting(now: int): seq<CommitEvent> { [Stat, Inspect(now), Discard] }

  function Publishing(tmp: string): seq<CommitEvent> { [Copy(tmp), LinkBody, RemoveTemporary, Unstage] }

  function CommitSchedule(u: Id, a: Id, tmp: string, now: int): seq<CommitEvent> {
    Entering(u) + Inspecting(now) + Publishing(tmp) + [InsertRow(a, now)]
  }

  function Steps(p: Params, s: System, t: Id, es: seq<CommitEvent>): System
    decreases |es|
  {
    if es == [] then s else Steps(p, CommitStep(p, s, t, es[0]), t, es[1..])
  }

  lemma {:induction false} StepsSplit(p: Params, s: System, t: Id, es: seq<CommitEvent>, fs: seq<CommitEvent>)
    ensures Steps(p, s, t, es + fs) == Steps(p, Steps(p, s, t, es), t, fs)
    decreases |es|
  {
    if es == [] {
      assert es + fs == fs;
    } else {
      assert (es + fs)[1..] == es[1..] + fs;
      StepsSplit(p, CommitStep(p, s, t, es[0]), t, es[1..], fs);
    }
  }

  lemma FourSteps(p: Params, s: System, t: Id, e: CommitEvent, f: CommitEvent, g: CommitEvent, h: CommitEvent)
    ensures Steps(p, s, t, [e, f, g, h])
            == CommitStep(p, CommitStep(p, CommitStep(p, CommitStep(p, s, t, e), t, f), t, g), t, h)
  {
    var s1 := CommitStep(p, s, t, e);
    assert [e, f, g, h][1..] == [f, g, h];
    ThreeSteps(p, s1, t, f, g, h);
  }

  lemma ThreeSteps(p: Params, s: System, t: Id, f: CommitEvent, g: CommitEvent, h: CommitEvent)
    ensures Steps(p, s, t, [f, g, h]) == CommitStep(p, CommitStep(p, CommitStep(p, s, t, f), t, g), t, h)
  {
    var s1, s2 := CommitStep(p, s, t, f), CommitStep(p, CommitStep(p, s, t, f), t, g);
    assert [f, g, h][1..] == [g, h] && [g, h][1..] == [h] && [h][1..] == [];
    assert Steps(p, s2, t, [h]) == Steps(p, CommitStep(p, s2, t, h), t, []);
    assert Steps(p, s1, t, [g, h]) == Steps(p, s2, t, [h]);
  }

  /** The only thread of a system. */
  function Alone(s: Store, t: Id, th: Thread): System { System(s, map[t := th]) }

  /* ---------- entering ---------- */

  function Fresh(s: Store, u: Id, pc: CommitPc): Thread
    requires u in s.uploads
  {
    Commit(pc, u, s.uploads[u].digest, s.uploads[u].size, StorageRef(s.uploads[u].digest))
  }

  /** Where the locked read, and the recovery of an interrupted commit, leave the thread. */
  function Entered(p: Params, s: Store, u: Id): Thread
    requires u in s.uploads
  {
    var row := s.uploads[u];
    if row.state == UploadCommitted && row.artifactId.Some? && row.artifactId.value in s.artifacts
      then Done(u, row.artifactId)
    else if row.state != UploadStaging then Done(u, None)
    else if u in s.staging then Fresh(s, u, Ready)
    else if Backed(p, s, StorageRef(row.digest), row.digest, row.size) then Fresh(s, u, Removed)
    else Done(u, None)
  }

  lemma Enters(p: Params, s: Store, t: Id, u: Id)
    requires u in s.uploads
    ensures Steps(p, System(s, map[]), t, Entering(u)) == Alone(s, t, Entered(p, s, u))
  {
    var s1 := BeginCommitStep(System(s, map[]), t, u);
    assert s1 == Alone(s, t, Fresh(s, u, Waiting));
    var s2 := AcquireStep(p, s1, t);
    assert s2 == Alone(s, t, Fresh(s, u, Locked));
    var s3 := ReadUploadStep(s2, t);
    Reads(s, t, u);
    Recovers(p, s, t, u);
    FourSteps(p, System(s, map[]), t, BeginCommit(u), Acquire, ReadUpload, Recover);
  }

  function AfterRead(s: Store, u: Id): Thread
    requires u in s.uploads
  {
    var row := s.uploads[u];
    if row.state == UploadCommitted && row.artifactId.Some? && row.artifactId.value in s.artifacts
      then Done(u, row.artifactId)
    else if row.state != UploadStaging then Done(u, None)
    else Fresh(s, u, Ready)
  }

  lemma Reads(s: Store, t: Id, u: Id)
    requires u in s.uploads
    ensures ReadUploadStep(Alone(s, t, Fresh(s, u, Locked)), t) == Alone(s, t, AfterRead(s, u))
  {
    var th := Fresh(s, u, Locked);
    assert forall x: Thread :: map[t := th][t := x] == map[t := x];
  }

  lemma Recovers(p: Params, s: Store, t: Id, u: Id)
    requires u in s.uploads
    ensures RecoverStep(p, Alone(s, t, AfterRead(s, u)), t) == Alone(s, t, Entered(p, s, u))
  {
    assert forall x: Thread :: map[t := AfterRead(s, u)][t := x] == map[t := x];
  }

  /* ---------- inspecting ---------- */

  /** A thread that is done, or has nothing left but its row. */
  predicate Settled(th: Thread) { th.Done? || (th.Commit? && th.pc == Removed) }

  lemma SettledSkips(p: Params, s: Store, t: Id, th: Thread, now: int, tmp: string)
    requires Settled(th)
    ensures Steps(p, Alone(s, t, th), t, Inspecting(now)) == Alone(s, t, th)
    ensures Steps(p, Alone(s, t, th), t, Publishing(tmp)) == Alone(s, t, th)
  {
    ThreeSteps(p, Alone(s, t, th), t, Stat, Inspect(now), Discard);
    FourSteps(p, Alone(s, t, th), t, Copy(tmp), LinkBody, RemoveTemporary, Unstage);
  }

  lemma Inspects(p: Params, s: Store, t: Id, u: Id, now: int)
    requires u in s.uploads && u in s.staging
    ensures var content := s.staging[u];
            Steps(p, Alone(s, t, Fresh(s, u, Ready)), t, Inspecting(now))
              == if p.secret(content) then Alone(RejectSecret(s, u, now), t, Done(u, None))
                 else Alone(s, t, Fresh(s, u, Inspected(|content|, content)))
  {
    var content := s.staging[u];
    assert StatStep(Alone(s, t, Fresh(s, u, Ready)), t) == Alone(s, t, Fresh(s, u, Sized(|content|)));
    InspectsSized(p, s, t, u, now);
    ThreeSteps(p, Alone(s, t, Fresh(s, u, Ready)), t, Stat, Inspect(now), Discard);
  }

  lemma InspectsSized(p: Params, s: Store, t: Id, u: Id, now: int)
    requires u in s.uploads && u in s.staging
    ensures var content := s.staging[u];
            DiscardStep(InspectStep(p, Alone(s, t, Fresh(s, u, Sized(|content|))), t, now), t)
              == if p.secret(content) then Alone(RejectSecret(s, u, now), t, Done(u, None))
                 else Alone(s, t, Fresh(s, u, Inspected(|content|, content)))
  {
    var th, content := Fresh(s, u, Sized(|s.staging[u]|)), s.staging[u];
    assert forall x: Thread :: map[t := th][t := x] == map[t := x];
    if p.secret(content) {
      assert InspectStep(p, Alone(s, t, th), t, now) == Alone(RejectRow(s, u, now), t, th.(pc := Discarding));
      assert forall x: Thread :: map[t := th.(pc := Discarding)][t := x] == map[t := x];
    }
  }

  /* ---------- publishing ---------- */

  /** What publishing leaves: a refusal without a trace, or the body in place and the staged file gone. */
  function PublishedState(p: Params, s: Store, t: Id, u: Id): System
    requires u in s.uploads && u in s.staging
  {
    var row := s.uploads[u];
    var ref := StorageRef(row.digest);
    if !ValidRef(ref) || !Matches(p, s.staging[u], row.digest, row.size) then Alone(s, t, Done(u, None))
    else
      var linked := Link(p, s, s.staging[u], ref, row.digest, row.size);
      if linked.Refused? then Alone(s, t, Done(u, None)) else Alone(Unstaged(linked.value, u), t, Fresh(s, u, Removed))
  }

  lemma PutDrop<K(!new), V(!new)>(m: map<K, V>, k: K, v: V)
    requires k !in m
    ensures m[k := v] - {k} == m
  {}

  lemma PutTwice<K(!new), V(!new)>(m: map<K, V>, k: K, v: V, l: K, w: V)
    requires k != l
    ensures m[k := v][l := w] == m[l := w][k := v]
  {}

  lemma MoveAlone(t: Id, th: Thread, x: Thread)
    ensures map[t := th][t := x] == map[t := x]
  {}

  /** The store with a temporary copy at `tmp`. */
  function WithTemporary(s: Store, tmp: string, content: Bytes): Store { s.(bodies := s.bodies[tmp := content]) }

  lemma Copies(p: Params, s: Store, t: Id, u: Id, tmp: string)
    requires u in s.uploads && u in s.staging && !ValidRef(tmp) && tmp !in s.bodies
    requires ValidRef(StorageRef(s.uploads[u].digest))
             && Matches(p, s.staging[u], s.uploads[u].digest, s.uploads[u].size)
    ensures var c := s.staging[u];
            CopyStep(p, Alone(s, t, Fresh(s, u, Inspected(|c|, c))), t, tmp)
              == Alone(WithTemporary(s, tmp, c), t, Fresh(s, u, Copied(|c|, c, c, tmp)))
  {
    var c := s.staging[u];
    MoveAlone(t, Fresh(s, u, Inspected(|c|, c)), Fresh(s, u, Copied(|c|, c, c, tmp)));
  }

  lemma Links(p: Params, s: Store, t: Id, u: Id, tmp: string, c: Bytes)
    requires u in s.uploads && !ValidRef(tmp) && tmp !in s.bodies && ValidRef(StorageRef(s.uploads[u].digest))
    ensures var row := s.uploads[u];
            var linked := Link(p, s, c, StorageRef(row.digest), row.digest, row.size);
            LinkStep(p, Alone(WithTemporary(s, tmp, c), t, Fresh(s, u, Copied(|c|, c, c, tmp))), t)
              == if linked.Refused? then Alone(WithTemporary(s, tmp, c), t, Fresh(s, u, Spoiled(tmp)))
                 else Alone(WithTemporary(linked.value, tmp, c), t, Fresh(s, u, Linked(|c|, c, c, tmp)))
  {
    var ref := StorageRef(s.uploads[u].digest);
    assert tmp != ref;
    PutTwice(s.bodies, tmp, c, ref, c);
    MoveAlone(t, Fresh(s, u, Copied(|c|, c, c, tmp)), Fresh(s, u, Spoiled(tmp)));
    MoveAlone(t, Fresh(s, u, Copied(|c|, c, c, tmp)), Fresh(s, u, Linked(|c|, c, c, tmp)));
  }

  lemma Clears(s: Store, t: Id, u: Id, tmp: string, c: Bytes)
    requires u in s.uploads && !ValidRef(tmp) && tmp !in s.bodies
    ensures RemoveTemporaryStep(Alone(WithTemporary(s, tmp, c), t, Fresh(s, u, Linked(|c|, c, c, tmp))), t)
              == Alone(s, t, Fresh(s, u, Published(|c|, c, c)))
    ensures RemoveTemporaryStep(Alone(WithTemporary(s, tmp, c), t, Fresh(s, u, Spoiled(tmp))), t)
            == Alone(s, t, Done(u, None))
  {
    PutDrop(s.bodies, tmp, c);
    MoveAlone(t, Fresh(s, u, Linked(|c|, c, c, tmp)), Fresh(s, u, Published(|c|, c, c)));
    MoveAlone(t, Fresh(s, u, Spoiled(tmp)), Done(u, None));
  }

  lemma Unstages(s: Store, t: Id, u: Id)
    requires u in s.uploads && u in s.staging
    ensures var c := s.staging[u];
            UnstageStep(Alone(s, t, Fresh(s, u, Published(|c|, c, c))), t)
              == Alone(Unstaged(s, u), t, Fresh(s, u, Removed))
  {
    var c := s.staging[u];
    MoveAlone(t, Fresh(s, u, Published(|c|, c, c)), Fresh(s, u, Removed));
  }

  lemma PublishingMismatch(p: Params, s: Store, t: Id, u: Id, tmp: string)
    requires u in s.uploads && u in s.staging
    requires !ValidRef(StorageRef(s.uploads[u].digest))
             || !Matches(p, s.staging[u], s.uploads[u].digest, s.uploads[u].size)
    ensures var c := s.staging[u];
            Steps(p, Alone(s, t, Fresh(s, u, Inspected(|c|, c))), t, Publishing(tmp)) == Alone(s, t, Done(u, None))
  {
    var c := s.staging[u];
    FourSteps(p, Alone(s, t, Fresh(s, u, Inspected(|c|, c))), t, Copy(tmp), LinkBody, RemoveTemporary, Unstage);
    MoveAlone(t, Fresh(s, u, Inspected(|c|, c)), Done(u, None));
  }

  lemma Clearing(p: Params, s: Store, t: Id, u: Id, tmp: string, c: Bytes)
    requires u in s.uploads && u in s.staging && s.staging[u] == c && !ValidRef(tmp) && tmp !in s.bodies
    ensures UnstageStep(RemoveTemporaryStep(Alone(WithTemporary(s, tmp, c), t, Fresh(s, u, Linked(|c|, c, c, tmp))), t),
            t)
              == Alone(Unstaged(s, u), t, Fresh(s, u, Removed))
    ensures UnstageStep(RemoveTemporaryStep(Alone(WithTemporary(s, tmp, c), t, Fresh(s, u, Spoiled(tmp))), t), t)
              == Alone(s, t, Done(u, None))
  {
    Clears(s, t, u, tmp, c);
    Unstages(s, t, u);
  }

  lemma Publishes(p: Params, s: Store, t: Id, u: Id, tmp: string)
    requires u in s.uploads && u in s.staging && !ValidRef(tmp) && tmp !in s.bodies
    ensures var c := s.staging[u];
            Steps(p, Alone(s, t, Fresh(s, u, Inspected(|c|, c))), t, Publishing(tmp)) == PublishedState(p, s, t, u)
  {
    var c, row := s.staging[u], s.uploads[u];
    if !ValidRef(StorageRef(row.digest)) || !Matches(p, c, row.digest, row.size) {
      PublishingMismatch(p, s, t, u, tmp);
    } else {
      PublishingMatch(p, s, t, u, tmp);
    }
  }

  lemma PublishingMatch(p: Params, s: Store, t: Id, u: Id, tmp: string)
    requires u in s.uploads && u in s.staging && !ValidRef(tmp) && tmp !in s.bodies
    requires ValidRef(StorageRef(s.uploads[u].digest))
    requires Matches(p, s.staging[u], s.uploads[u].digest, s.uploads[u].size)
    ensures var c := s.staging[u];
            Steps(p, Alone(s, t, Fresh(s, u, Inspected(|c|, c))), t, Publishing(tmp)) == PublishedState(p, s, t, u)
  {
    var c := s.staging[u];
    FourSteps(p, Alone(s, t, Fresh(s, u, Inspected(|c|, c))), t, Copy(tmp), LinkBody, RemoveTemporary, Unstage);
    Copies(p, s, t, u, tmp);
    Links(p, s, t, u, tmp, c);
    ClearingEnds(p, s, t, u, tmp);
  }

  /** Where the link leaves the thread, with the hidden copy still there. */
  function LinkedState(p: Params, s: Store, t: Id, u: Id, tmp: string): System
    requires u in s.uploads && u in s.staging
  {
    var c, row := s.staging[u], s.uploads[u];
    var linked := Link(p, s, c, StorageRef(row.digest), row.digest, row.size);
    if linked.Refused? then Alone(WithTemporary(s, tmp, c), t, Fresh(s, u, Spoiled(tmp)))
    else Alone(WithTemporary(linked.value, tmp, c), t, Fresh(s, u, Linked(|c|, c, c, tmp)))
  }

  lemma ClearingEnds(p: Params, s: Store, t: Id, u: Id, tmp: string)
    requires u in s.uploads && u in s.staging && !ValidRef(tmp) && tmp !in s.bodies
    requires ValidRef(StorageRef(s.uploads[u].digest))
    requires Matches(p, s.staging[u], s.uploads[u].digest, s.uploads[u].size)
    ensures UnstageStep(RemoveTemporaryStep(LinkedState(p, s, t, u, tmp), t), t) == PublishedState(p, s, t, u)
  {
    var c, row := s.staging[u], s.uploads[u];
    var linked := Link(p, s, c, StorageRef(row.digest), row.digest, row.size);
    Clearing(p, if linked.Refused? then s else linked.value, t, u, tmp, c);
  }

  /* ---------- the whole call ---------- */

  lemma Inserts(p: Params, s: Store, t: Id, u: Id, a: Id, now: int)
    requires u in s.uploads && s.uploads[u].state == UploadStaging && a !in s.artifacts
    ensures Steps(p, Alone(s, t, Fresh(s, u, Removed)), t, [InsertRow(a, now)])
            == Alone(InsertArtifact(s, u, a, now), t, Done(u, Some(a)))
  {
    MoveAlone(t, Fresh(s, u, Removed), Done(u, Some(a)));
    OneStep(p, Alone(s, t, Fresh(s, u, Removed)), t, InsertRow(a, now));
  }

  lemma OneStep(p: Params, s: System, t: Id, e: CommitEvent)
    ensures Steps(p, s, t, [e]) == CommitStep(p, s, t, e)
  {
    assert Steps(p, CommitStep(p, s, t, e), t, [e][1..]) == CommitStep(p, s, t, e);
  }

  lemma InsertSkips(p: Params, s: Store, t: Id, th: Thread, a: Id, now: int)
    requires th.Done?
    ensures Steps(p, Alone(s, t, th), t, [InsertRow(a, now)]) == Alone(s, t, th)
  {
    OneStep(p, Alone(s, t, th), t, InsertRow(a, now));
  }

  lemma Phases(p: Params, s: System, t: Id, u: Id, a: Id, tmp: string, now: int)
    ensures Steps(p, s, t, CommitSchedule(u, a, tmp, now))
              == Steps(p, Steps(p, Steps(p, Steps(p, s, t, Entering(u)), t, Inspecting(now)), t, Publishing(tmp)), t,
                [InsertRow(a, now)])
  {
    StepsSplit(p, s, t, Entering(u) + Inspecting(now) + Publishing(tmp), [InsertRow(a, now)]);
    StepsSplit(p, s, t, Entering(u) + Inspecting(now), Publishing(tmp));
    StepsSplit(p, s, t, Entering(u), Inspecting(now));
  }

  function Answer(u: Id, r: Result<Id>): Thread { Done(u, if r.Ok? then Some(r.value) else None) }

  /** With the staged file there: rejected, refused, or stored. */
  lemma StagedSchedule(p: Params, s: Store, t: Id, u: Id, a: Id, tmp: string, now: int)
    requires u in s.uploads && s.uploads[u].state == UploadStaging && u in s.staging && a !in s.artifacts
    requires !ValidRef(tmp) && tmp !in s.bodies
    ensures var (s', r) := Calls.Commit(p, s, u, a, now);
            Steps(p, Steps(p, Steps(p, Alone(s, t, Fresh(s, u, Ready)), t, Inspecting(now)), t, Publishing(tmp)), t,
              [InsertRow(a, now)])
              == Alone(s', t, Answer(u, r))
  {
    Inspects(p, s, t, u, now);
    if p.secret(s.staging[u]) {
      SettledSkips(p, RejectSecret(s, u, now), t, Done(u, None), now, tmp);
      InsertSkips(p, RejectSecret(s, u, now), t, Done(u, None), a, now);
    } else {
      Publishes(p, s, t, u, tmp);
      var row := s.uploads[u];
      var linked := Link(p, s, s.staging[u], StorageRef(row.digest), row.digest, row.size);
      if ValidRef(StorageRef(row.digest)) && Matches(p, s.staging[u], row.digest, row.size) && linked.Ok? {
        Inserts(p, Unstaged(linked.value, u), t, u, a, now);
      } else {
        InsertSkips(p, s, t, Done(u, None), a, now);
      }
    }
  }

  lemma CommitInSteps(p: Params, s: Store, t: Id, u: Id, a: Id, tmp: string, now: int)
    requires u in s.uploads && a !in s.artifacts && !ValidRef(tmp) && tmp !in s.bodies
    ensures var (s', r) := Calls.Commit(p, s, u, a, now);
            Steps(p, System(s, map[]), t, CommitSchedule(u, a, tmp, now)) == Alone(s', t, Answer(u, r))
  {
    Phases(p, System(s, map[]), t, u, a, tmp, now);
    Enters(p, s, t, u);
    var th := Entered(p, s, u);
    if th.Done? {
      SettledSkips(p, s, t, th, now, tmp);
      InsertSkips(p, s, t, th, a, now);
    } else if u in s.staging {
      StagedSchedule(p, s, t, u, a, tmp, now);
    } else {
      SettledSkips(p, s, t, th, now, tmp);
      Inserts(p, s, t, u, a, now);
    }
  }

  /* ---------- as a run of the protocol ---------- */

  function Lifted(t: Id, es: seq<CommitEvent>): seq<Event> {
    if es == [] then [] else [ByCommit(t, es[0])] + Lifted(t, es[1..])
  }

  lemma {:induction false} RunIsSteps(p: Params, s: System, t: Id, es: seq<CommitEvent>)
    ensures Run(p, s, Lifted(t, es)) == Steps(p, s, t, es)
    decreases |es|
  {
    if es != [] {
      assert Lifted(t, es)[1..] == Lifted(t, es[1..]);
      RunIsSteps(p, CommitStep(p, s, t, es[0]), t, es[1..]);
    }
  }

  /** Alone, the pieces of a commit are the commit of the service in every case: replay, refusal, secret
      rejection, publication, collision and recovery. */
  lemma CommitIsASchedule(p: Params, s: Store, t: Id, u: Id, a: Id, tmp: string, now: int)
    requires u in s.uploads && a !in s.artifacts && !ValidRef(tmp) && tmp !in s.bodies
    ensures var (s', r) := Calls.Commit(p, s, u, a, now);
            Run(p, System(s, map[]), Lifted(t, CommitSchedule(u, a, tmp, now))) == Alone(s', t, Answer(u, r))
  {
    RunIsSteps(p, System(s, map[]), t, CommitSchedule(u, a, tmp, now));
    CommitInSteps(p, s, t, u, a, tmp, now);
  }
}
