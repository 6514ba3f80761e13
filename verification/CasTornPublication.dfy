/** A run in which both precautions fail: bytes appended between inspection and publication, and an
    abort that a crash cuts off, make content available that the inspector rejects. */
module CasTornPublication {
  import opened Outcomes
  import opened ArtifactStore
  import opened CasProtocol
  import opened CasResults
  import opened CasSchedule
  import opened CasUploads

  /** Content that the inspector rejects as a whole, but not its first `m` bytes. */
  ghost predicate RejectedAsWhole(p: Params, c: Bytes, m: nat) {
    && m < |c| <= p.maxArtifactBytes && p.maxChunkBytes > 0
    && !p.secret(c[..m]) && p.secret(c)
    && ValidDigest(p, p.digest(c)) && ValidRef(StorageRef(p.digest(c)))
  }

  lemma FirstPart(p: Params, c: Bytes, m: nat)
    requires RejectedAsWhole(p, c, m)
    ensures Run(p, START, Opening(p, c, m)) == System(Uploading(p, c, c[..m]), map[])
  {
    Uploads(p, c, m);
  }

  /** The commit has inspected the first part. */
  lemma FirstPartInspected(p: Params, c: Bytes, m: nat)
    requires RejectedAsWhole(p, c, m)
    ensures var s := Uploading(p, c, c[..m]);
            Run(p, System(s, map[]), Lifted(0, Entering(0) + Inspecting(0)))
              == Alone(s, 0, Fresh(s, 0, Inspected(m, c[..m])))
  {
    var s := Uploading(p, c, c[..m]);
    RunIsSteps(p, System(s, map[]), 0, Entering(0) + Inspecting(0));
    StepsSplit(p, System(s, map[]), 0, Entering(0), Inspecting(0));
    Enters(p, s, 0, 0);
    Inspects(p, s, 0, 0, 0);
  }

  /** The rest lands. */
  lemma SecondPart(p: Params, c: Bytes, m: nat)
    requires RejectedAsWhole(p, c, m)
    ensures var s, s' := Uploading(p, c, c[..m]), Uploading(p, c, c);
            Run(p, Alone(s, 0, Fresh(s, 0, Inspected(m, c[..m]))), Chunks(p, c, m, |c|))
              == Alone(s', 0, Fresh(s', 0, Inspected(m, c[..m])))
  {
    var s := Uploading(p, c, c[..m]);
    assert c[..|c|] == c;
    AllChunks(p, c, m, |c|, map[0 := Fresh(s, 0, Inspected(m, c[..m]))]);
  }

  /** A system with these bodies, whose thread is at `pc`. */
  function Midway(p: Params, c: Bytes, bodies: map<string, Bytes>, pc: CommitPc): System {
    Alone(Uploading(p, c, c).(bodies := bodies), 0, Fresh(Uploading(p, c, c), 0, pc))
  }

  lemma CopiesAll(p: Params, a: Bytes, c: Bytes, tmp: string)
    requires ValidRef(StorageRef(p.digest(c))) && !ValidRef(tmp)
    ensures CopyStep(p, Midway(p, c, map[], Inspected(|a|, a)), 0, tmp)
            == Midway(p, c, map[tmp := c], Copied(|a|, a, c, tmp))
  {
    MoveAlone(0, Fresh(Uploading(p, c, c), 0, Inspected(|a|, a)), Fresh(Uploading(p, c, c), 0, Copied(|a|, a, c, tmp)));
  }

  lemma LinksAll(p: Params, a: Bytes, c: Bytes, tmp: string)
    requires ValidRef(StorageRef(p.digest(c))) && !ValidRef(tmp)
    ensures LinkStep(p, Midway(p, c, map[tmp := c], Copied(|a|, a, c, tmp)), 0)
              == Midway(p, c, map[tmp := c, StorageRef(p.digest(c)) := c], Linked(|a|, a, c, tmp))
  {
    MoveAlone(0, Fresh(Uploading(p, c, c), 0, Copied(|a|, a, c, tmp)),
      Fresh(Uploading(p, c, c), 0, Linked(|a|, a, c, tmp)));
  }

  lemma ClearsAll(p: Params, a: Bytes, c: Bytes, tmp: string)
    requires ValidRef(StorageRef(p.digest(c))) && !ValidRef(tmp)
    ensures RemoveTemporaryStep(Midway(p, c, map[tmp := c, StorageRef(p.digest(c)) := c], Linked(|a|, a, c, tmp)), 0)
              == Midway(p, c, map[StorageRef(p.digest(c)) := c], Published(|a|, a, c))
  {
    assert map[tmp := c, StorageRef(p.digest(c)) := c] - {tmp} == map[StorageRef(p.digest(c)) := c];
    MoveAlone(0, Fresh(Uploading(p, c, c), 0, Linked(|a|, a, c, tmp)),
      Fresh(Uploading(p, c, c), 0, Published(|a|, a, c)));
  }

  lemma RefusesAll(p: Params, a: Bytes, c: Bytes)
    requires |a| != |c|
    ensures UnstageStep(Midway(p, c, map[StorageRef(p.digest(c)) := c], Published(|a|, a, c)), 0)
              == Alone(Uploading(p, c, c).(bodies := map[StorageRef(p.digest(c)) := c]), 0, Done(0, None))
  {
    MoveAlone(0, Fresh(Uploading(p, c, c), 0, Published(|a|, a, c)), Done(0, None));
  }

  /** Everything staged is published, and only then the commit refuses. */
  lemma AllPublished(p: Params, c: Bytes, m: nat, tmp: string)
    requires RejectedAsWhole(p, c, m) && !ValidRef(tmp)
    ensures var s, ref := Uploading(p, c, c), StorageRef(p.digest(c));
            Run(p, Alone(s, 0, Fresh(s, 0, Inspected(m, c[..m]))), Lifted(0, Publishing(tmp)))
              == Alone(s.(bodies := map[ref := c]), 0, Done(0, None))
  {
    var a := c[..m];
    CopiesAll(p, a, c, tmp);
    LinksAll(p, a, c, tmp);
    ClearsAll(p, a, c, tmp);
    RefusesAll(p, a, c);
    RunIsSteps(p, Midway(p, c, map[], Inspected(m, c[..m])), 0, Publishing(tmp));
    FourSteps(p, Midway(p, c, map[], Inspected(m, c[..m])), 0, Copy(tmp), LinkBody, RemoveTemporary, Unstage);
    assert Uploading(p, c, c).(bodies := map[]) == Uploading(p, c, c);
  }

  /** An abort unlinks the staged file, and a crash keeps it from committing. */
  lemma AbortCutOff(p: Params, c: Bytes, m: nat)
    requires RejectedAsWhole(p, c, m)
    ensures var s := Uploading(p, c, c).(bodies := map[StorageRef(p.digest(c)) := c]);
            Run(p, Alone(s, 0, Done(0, None)), [OnStore(Abort(0, 0, false)), Crash])
              == System(s.(staging := map[]), map[])
  {
    var s := Uploading(p, c, c).(bodies := map[StorageRef(p.digest(c)) := c]);
    var aborting := OnStore(Abort(0, 0, false));
    assert Unstaged(s, 0) == s.(staging := map[]);
    assert [aborting, Crash] == [aborting] + [Crash];
    RunAppend(p, Alone(s, 0, Done(0, None)), [aborting], [Crash]);
    RunOne(p, Alone(s, 0, Done(0, None)), aborting);
    RunOne(p, Alone(s.(staging := map[]), 0, Done(0, None)), Crash);
  }

  /** The next commit takes the published body for that of an interrupted commit. */
  lemma Recovered(p: Params, c: Bytes, m: nat)
    requires RejectedAsWhole(p, c, m)
    ensures var s := Uploading(p, c, c).(bodies := map[StorageRef(p.digest(c)) := c], staging := map[]);
            Run(p, System(s, map[]), Lifted(0, Entering(0) + [InsertRow(1, 0)]))
              == Alone(InsertArtifact(s, 0, 1, 0), 0, Done(0, Some(1)))
  {
    var s := Uploading(p, c, c).(bodies := map[StorageRef(p.digest(c)) := c], staging := map[]);
    RunIsSteps(p, System(s, map[]), 0, Entering(0) + [InsertRow(1, 0)]);
    StepsSplit(p, System(s, map[]), 0, Entering(0), [InsertRow(1, 0)]);
    Enters(p, s, 0, 0);
    Inserts(p, s, 0, 0, 1, 0);
  }

  function TornCommit(p: Params, c: Bytes, m: nat, tmp: string): seq<Event>
    requires m <= |c| && p.maxChunkBytes > 0
  {
    Opening(p, c, m)
    + Lifted(0, Entering(0) + Inspecting(0))
    + Chunks(p, c, m, |c|)
    + Lifted(0, Publishing(tmp))
    + [OnStore(Abort(0, 0, false)), Crash]
    + Lifted(0, Entering(0) + [InsertRow(1, 0)])
  }

  lemma SixPhases(
    p: Params, s: System, a: seq<Event>, b: seq<Event>, c: seq<Event>, d: seq<Event>, e: seq<Event>, f: seq<Event>)
    ensures Run(p, s, a + b + c + d + e + f) == Run(p, Run(p, Run(p, Run(p, Run(p, Run(p, s, a), b), c), d), e), f)
  {
    RunAppend(p, s, a + b + c + d + e, f);
    RunAppend(p, s, a + b + c + d, e);
    RunAppend(p, s, a + b + c, d);
    RunAppend(p, s, a + b, c);
    RunAppend(p, s, a, b);
  }

  /** With both an append in between and an abort cut off, an available artifact can hold a body that the
      inspector rejects; either precaution alone rules that out. */
  lemma RejectedContentCanBecomeAvailable(p: Params, c: Bytes, m: nat, tmp: string)
    requires RejectedAsWhole(p, c, m) && !ValidRef(tmp)
    ensures var s := Run(p, START, TornCommit(p, c, m, tmp)).store;
            && 1 in s.artifacts && s.artifacts[1].lifecycle == Available
            && s.artifacts[1].ref in s.bodies && p.secret(s.bodies[s.artifacts[1].ref])
  {
    SixPhases(p, START, Opening(p, c, m), Lifted(0, Entering(0) + Inspecting(0)), Chunks(p, c, m, |c|),
              Lifted(0, Publishing(tmp)), [OnStore(Abort(0, 0, false)), Crash],
              Lifted(0, Entering(0) + [InsertRow(1, 0)]));
    FirstPart(p, c, m);
    FirstPartInspected(p, c, m);
    SecondPart(p, c, m);
    AllPublished(p, c, m, tmp);
    AbortCutOff(p, c, m);
    Recovered(p, c, m);
  }
}
