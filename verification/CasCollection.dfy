/** One caller alone: the atomic pieces of a collection, reference after reference, are the collection of the
    service, and those of a read are the read. */
module CasCollection {
  import opened Outcomes
  import opened Listings
  import opened ArtifactRoots
  import opened ArtifactStore
  import opened ArtifactCalls
  import P = CasProtocol

  /** The system of one thread. */
  function Only(s: Store, t: Id, th: P.Thread): P.System { P.System(s, map[t := th]) }

  ghost function Collects(p: Params, s: P.System, t: Id, es: seq<P.CollectEvent>): P.System
    decreases |es|
  {
    if es == [] then s else Collects(p, P.CollectStep(p, s, t, es[0]), t, es[1..])
  }

  lemma MoveOnly(t: Id, th: P.Thread, x: P.Thread)
    ensures map[t := th][t := x] == map[t := x]
  {}

  /* ---------- one reference ---------- */

  function Visiting(ref: string): seq<P.CollectEvent> {
    [P.NextRef(ref), P.Enter, P.CheckLive, P.RemoveBody, P.MarkDeleted]
  }

  /** What the thread does under the lock. */
  function Checked(s: P.System, t: Id): P.System {
    P.MarkDeletedStep(P.RemoveBodyStep(P.CheckLiveStep(s, t), t), t)
  }

  lemma FiveSteps(p: Params, s: P.System, t: Id, ref: string)
    ensures Collects(p, s, t, Visiting(ref))
              == Checked(P.EnterStep(p, P.NextRefStep(s, t, ref), t), t)
  {
    var es := Visiting(ref);
    var s1 := P.NextRefStep(s, t, ref);
    var s2 := P.EnterStep(p, s1, t);
    var s3 := P.CheckLiveStep(s2, t);
    var s4 := P.RemoveBodyStep(s3, t);
    var s5 := P.MarkDeletedStep(s4, t);
    assert es[1..] == [P.Enter, P.CheckLive, P.RemoveBody, P.MarkDeleted];
    assert es[1..][1..] == [P.CheckLive, P.RemoveBody, P.MarkDeleted];
    assert es[1..][1..][1..] == [P.RemoveBody, P.MarkDeleted];
    assert es[1..][1..][1..][1..] == [P.MarkDeleted];
    assert es[1..][1..][1..][1..][1..] == [];
    assert Collects(p, s5, t, []) == s5;
    assert Collects(p, s4, t, [P.MarkDeleted]) == s5;
    assert Collects(p, s3, t, [P.RemoveBody, P.MarkDeleted]) == s5;
    assert Collects(p, s2, t, [P.CheckLive, P.RemoveBody, P.MarkDeleted]) == s5;
  }

  lemma EntersAlone(p: Params, s: Store, t: Id, ref: string, rest: set<string>)
    requires ref in rest
    ensures P.EnterStep(p, P.NextRefStep(Only(s, t, P.Sweep(rest, true)), t, ref), t)
              == Only(s, t, P.Collect(P.Entered, ref, rest - {ref}, true))
  {
    MoveOnly(t, P.Sweep(rest, true), P.Collect(P.Queued, ref, rest - {ref}, true));
    MoveOnly(t, P.Collect(P.Queued, ref, rest - {ref}, true), P.Collect(P.Entered, ref, rest - {ref}, true));
  }

  lemma LiveIsLeft(s: Store, t: Id, ref: string, rest: set<string>)
    requires !NoLive(s, ref)
    ensures Checked(Only(s, t, P.Collect(P.Entered, ref, rest, true)), t)
              == Only(s, t, P.Sweep(rest, true))
  {
    MoveOnly(t, P.Collect(P.Entered, ref, rest, true), P.Sweep(rest, true));
  }

  lemma ClearIsSwept(s: Store, t: Id, ref: string, rest: set<string>)
    requires NoLive(s, ref) && ValidRef(ref)
    ensures Checked(Only(s, t, P.Collect(P.Entered, ref, rest, true)), t)
              == Only(SetAll(DeleteBody(s, ref), TombstonedAt(s, ref), Deleted), t, P.Sweep(rest, true))
  {
    MoveOnly(t, P.Collect(P.Entered, ref, rest, true), P.Collect(P.Clear, ref, rest, true));
    MoveOnly(t, P.Collect(P.Clear, ref, rest, true), P.Collect(P.Cleared, ref, rest, true));
    MoveOnly(t, P.Collect(P.Cleared, ref, rest, true), P.Sweep(rest, true));
    assert TombstonedAt(DeleteBody(s, ref), ref) == TombstonedAt(s, ref);
  }

  lemma VisitIsSweep(p: Params, s: Store, t: Id, ref: string, rest: set<string>)
    requires ref in rest && ValidRef(ref)
    ensures Collects(p, Only(s, t, P.Sweep(rest, true)), t, Visiting(ref))
              == Only(Swept(s, {ref}), t, P.Sweep(rest - {ref}, true))
  {
    FiveSteps(p, Only(s, t, P.Sweep(rest, true)), t, ref);
    EntersAlone(p, s, t, ref, rest);
    if NoLive(s, ref) {
      SweepOne(s, ref);
      ClearIsSwept(s, t, ref, rest - {ref});
    } else {
      SweepNone(s, ref);
      LiveIsLeft(s, t, ref, rest - {ref});
    }
  }

  /* ---------- all references ---------- */

  function VisitingAll(refs: seq<string>, n: nat): seq<P.CollectEvent>
    requires n <= |refs|
  {
    if n == 0 then [] else VisitingAll(refs, n - 1) + Visiting(refs[n - 1])
  }

  lemma {:induction false} CollectsAppend(
    p: Params, s: P.System, t: Id, es: seq<P.CollectEvent>, fs: seq<P.CollectEvent>)
    ensures Collects(p, s, t, es + fs) == Collects(p, Collects(p, s, t, es), t, fs)
    decreases |es|
  {
    if es == [] {
      assert es + fs == fs;
    } else {
      assert (es + fs)[1..] == es[1..] + fs;
      CollectsAppend(p, P.CollectStep(p, s, t, es[0]), t, es[1..], fs);
    }
  }

  predicate Distinct(refs: seq<string>) { forall i, j :: 0 <= i < j < |refs| ==> refs[i] != refs[j] }

  lemma {:induction false} VisitsAreSweeps(p: Params, s: Store, t: Id, refs: seq<string>, n: nat)
    requires n <= |refs| && Distinct(refs) && forall r :: r in refs ==> ValidRef(r)
    ensures Collects(p, Only(s, t, P.Sweep(Elements(refs), true)), t, VisitingAll(refs, n))
              == Only(Swept(s, Elements(refs[..n])), t, P.Sweep(Elements(refs) - Elements(refs[..n]), true))
  {
    if n == 0 {
      SweptNothing(s);
      assert Elements(refs[..0]) == {} && Elements(refs) - {} == Elements(refs);
    } else {
      var done, ref := Elements(refs[..n - 1]), refs[n - 1];
      VisitsAreSweeps(p, s, t, refs, n - 1);
      CollectsAppend(p, Only(s, t, P.Sweep(Elements(refs), true)), t, VisitingAll(refs, n - 1), Visiting(ref));
      assert ref in refs && ref !in refs[..n - 1];
      VisitIsSweep(p, Swept(s, done), t, ref, Elements(refs) - done);
      SweptUnion(s, done, ref);
      ElementsOfPrefix(refs, n - 1);
      assert Elements(refs) - done - {ref} == Elements(refs) - Elements(refs[..n]);
    }
  }

  /** A collection alone: the tombstone transaction and then the freed references, in whatever order they are
      visited, end in the state of the call. */
  lemma CollectionIsASchedule(p: Params, s: Store, t: Id, plan: Id, refs: seq<string>)
    requires plan in s.gcPlans && !s.gcPlans[plan].applied && Tombstone(s, plan).Ok?
    requires Elements(refs) == RefsOf(s, AvailableAmong(s, s.gcPlans[plan].candidates)) && Distinct(refs)
    requires forall a :: a in s.artifacts ==> ValidRef(s.artifacts[a].ref)
    ensures Collects(p, P.System(s, map[]), t, [P.ApplyGc(plan)] + VisitingAll(refs, |refs|))
              == Only(ApplyGc(s, plan).0, t, P.Sweep({}, true))
  {
    var ids := AvailableAmong(s, s.gcPlans[plan].candidates);
    forall r | r in refs ensures ValidRef(r) { assert r in Elements(refs); }
    assert (set a | a in ids :: s.artifacts[a].ref) == RefsOf(s, ids);
    var begun := Only(Tombstone(s, plan).value, t, P.Sweep(Elements(refs), true));
    assert P.CollectStep(p, P.System(s, map[]), t, P.ApplyGc(plan)) == begun;
    VisitsAreSweeps(p, Tombstone(s, plan).value, t, refs, |refs|);
    assert refs[..|refs|] == refs && Elements(refs) - Elements(refs) == {};
    assert ([P.ApplyGc(plan)] + VisitingAll(refs, |refs|))[1..] == VisitingAll(refs, |refs|);
  }

  /* ---------- reading ---------- */

  /** A read alone: begin, observe the body, and mark the row if it is missing or corrupt. */
  function Reads(p: Params, s: P.System, t: Id, a: Id): P.System {
    P.ReadStep(p, P.ReadStep(p, P.ReadStep(p, s, t, P.BeginRead(a)), t, P.Observe), t, P.MarkRead)
  }

  /** It ends in the state of the call. */
  lemma ReadIsASchedule(p: Params, s: Store, t: Id, a: Id)
    ensures Reads(p, P.System(s, map[]), t, a).store == Read(p, s, a).0
  {
    if a in s.artifacts && s.artifacts[a].lifecycle == Available {
      var row := s.artifacts[a];
      var found := if row.ref !in s.bodies then Some(Missing)
                   else if !Matches(p, s.bodies[row.ref], row.digest, row.size) then Some(Corrupt) else None;
      MoveOnly(t, P.Reader(a, None), P.Reader(a, found));
      assert P.ReadStep(p, P.System(s, map[]), t, P.BeginRead(a)) == Only(s, t, P.Reader(a, None));
    }
  }
}
