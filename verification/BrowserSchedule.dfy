/** One caller alone: the events of the protocol, one after another, are the calls of the supervisor. */
module BrowserSchedule {
  import opened Outcomes
  import opened Listings
  import opened BrowserSessions
  import opened BrowserProtocol
  import opened BrowserSupervisor

  /* ---------- acting ---------- */

  lemma DropPut(s: System, t: Id, task: Task)
    requires t !in s.tasks
    ensures Drop(Put(s, t, task), t) == s
  {
    assert s.tasks[t := task] - {t} == s.tasks;
  }

  function Acting(t: Id, key: Id, request: Request, owner: string, authorized: bool, now: int, outcome: ActOutcome)
    : seq<Event>
  {
    [BeginAct(t, key, request, owner, authorized, now), JournalAct(t), Dispatch(t, outcome), SettleAct(t),
     CompleteAct(t)]
  }

  /** The steps after the checks. */
  function Carried(s: System, t: Id, outcome: ActOutcome): System {
    CompleteStep(SettleStep(DispatchStep(JournalStep(s, t), t, outcome), t), t)
  }

  lemma FiveSteps(
    s: System, t: Id, key: Id, request: Request, owner: string, authorized: bool, now: int, outcome: ActOutcome)
    ensures Run(s, Acting(t, key, request, owner, authorized, now, outcome))
              == Carried(BeginActStep(s, t, key, request, owner, authorized, now), t, outcome)
  {
    var es := Acting(t, key, request, owner, authorized, now, outcome);
    var s1 := BeginActStep(s, t, key, request, owner, authorized, now);
    var s2 := JournalStep(s1, t);
    var s3 := DispatchStep(s2, t, outcome);
    var s4 := SettleStep(s3, t);
    var s5 := CompleteStep(s4, t);
    assert es[1..] == [JournalAct(t), Dispatch(t, outcome), SettleAct(t), CompleteAct(t)];
    assert es[1..][1..] == [Dispatch(t, outcome), SettleAct(t), CompleteAct(t)];
    assert es[1..][1..][1..] == [SettleAct(t), CompleteAct(t)];
    assert es[1..][1..][1..][1..] == [CompleteAct(t)];
    assert es[1..][1..][1..][1..][1..] == [];
    assert Run(s5, []) == s5;
    assert Run(s4, [CompleteAct(t)]) == s5;
    assert Run(s3, [SettleAct(t), CompleteAct(t)]) == s5;
    assert Run(s2, [Dispatch(t, outcome), SettleAct(t), CompleteAct(t)]) == s5;
  }

  lemma RefusedIsNotCarried(s: System, t: Id, outcome: ActOutcome)
    requires t !in s.tasks
    ensures Carried(s, t, outcome) == s
  {}

  predicate CallEnds(s: System, t: Id, s': System, rows: Rows) {
    s'.rows == rows && s'.tasks == s.tasks && s'.handles == s.handles
  }

  lemma JournaledAlone(s: System, t: Id, key: Id, request: Request, session: Session)
    requires t !in s.tasks && key !in s.rows.actions
    ensures JournalStep(Put(s, t, ActTask(Checked, key, request, session)), t)
              == Put(s.(rows := Journal(s.rows, key, request)), t, ActTask(Journaled, key, request, session))
  {
    assert s.tasks[t := ActTask(Checked, key, request, session)][t := ActTask(Journaled, key, request, session)]
           == s.tasks[t := ActTask(Journaled, key, request, session)];
  }

  /** From the journal row on: the driver is called, and its outcome is settled and recorded. */
  lemma SettledAlone(s: System, t: Id, key: Id, request: Request, session: Session, outcome: ActOutcome)
    requires t !in s.tasks && key in s.rows.actions && request.session in s.handles
    ensures var s' := CompleteStep(SettleStep(DispatchStep(Put(s, t, ActTask(Journaled, key, request, session)), t,
                                                           outcome), t), t);
            var settled := Settle(s.rows, request, session, outcome);
            CallEnds(s, t, s', if settled.Refused? then s.rows
                               else Complete(settled.value, key, ResultOf(session, outcome)))
  {
    var s1 := Put(s, t, ActTask(Journaled, key, request, session));
    var s2 := DispatchStep(s1, t, outcome);
    var settled := Settle(s.rows, request, session, outcome);
    assert s2.tasks == s.tasks[t := ActTask(Dispatched(outcome), key, request, session)];
    var s3 := SettleStep(s2, t);
    if settled.Refused? {
      assert s3.tasks == s.tasks;
    } else {
      assert s3.tasks == s.tasks[t := ActTask(Settled(ResultOf(session, outcome)), key, request, session)];
      assert s3.tasks - {t} == s.tasks;
    }
  }

  lemma LostAlone(s: System, t: Id, key: Id, request: Request, session: Session, outcome: ActOutcome)
    requires t !in s.tasks && request.session !in s.handles
    ensures CompleteStep(SettleStep(DispatchStep(Put(s, t, ActTask(Journaled, key, request, session)), t, outcome), t),
              t) == s
  {
    DropPut(s, t, ActTask(Journaled, key, request, session));
  }

  lemma CarriedAlone(s: System, t: Id, key: Id, request: Request, owner: string, now: int, outcome: ActOutcome)
    requires t !in s.tasks && key !in s.rows.actions && MayAct(s.rows, request, owner, true, now)
    ensures CallEnds(s, t,
              Carried(Put(s, t, ActTask(Checked, key, request, s.rows.sessions[request.session])), t, outcome),
              ActCall(s.rows, s.handles, key, request, owner, None, now, outcome).0)
  {
    var session := s.rows.sessions[request.session];
    JournaledAlone(s, t, key, request, session);
    var journaled := s.(rows := Journal(s.rows, key, request));
    if request.session in s.handles {
      SettledAlone(journaled, t, key, request, session, outcome);
    } else {
      LostAlone(journaled, t, key, request, session, outcome);
    }
  }

  /** An action alone: whatever the driver does, the five events leave the rows that the call leaves. */
  lemma ActIsASchedule(
    s: System, t: Id, key: Id, request: Request, owner: string, verdict: Option<Code>, now: int, outcome: ActOutcome)
    requires t !in s.tasks && !SessionLocked(s, request.session)
    ensures CallEnds(s, t, Run(s, Acting(t, key, request, owner, verdict == None, now, outcome)),
              ActCall(s.rows, s.handles, key, request, owner, verdict, now, outcome).0)
  {
    FiveSteps(s, t, key, request, owner, verdict == None, now, outcome);
    if key in s.rows.actions || !MayAct(s.rows, request, owner, verdict == None, now) {
      RefusedIsNotCarried(s, t, outcome);
    } else {
      CarriedAlone(s, t, key, request, owner, now, outcome);
    }
  }

  /* ---------- opening and closing ---------- */

  lemma TwoSteps(s: System, a: Event, b: Event)
    ensures Run(s, [a, b]) == Step(Step(s, a), b)
  {
    assert [a, b][1..] == [b] && [b][1..] == [];
    assert Run(Step(s, a), [b]) == Run(Step(Step(s, a), b), []);
  }

  /** Opening alone: the new session is at revision one, and active with a live handle if the driver opened. If it
      failed, or could not tell, there is none: what may have happened is noted, except that a session that keeps no
      profile is failed if the driver failed. */
  lemma OpenIsASchedule(s: System, t: Id, id: Id, persistent: bool, owner: string, outcome: OpenOutcome)
    requires t !in s.tasks && id !in s.rows.sessions
    ensures var s' := Run(s, [BeginOpen(t, id, persistent, owner), FinishOpen(t, outcome)]);
            && s'.tasks == s.tasks && id in s'.rows.sessions
            && s'.rows == s.rows.(sessions := s.rows.sessions[id := s'.rows.sessions[id]])
            && var row := s'.rows.sessions[id];
               && row.persistent == persistent && row.owner == owner && row.revision == 1
               && (outcome.DriverOpened? ==>
                     row.state == Active && row.pages == outcome.pages && row.effect == None
                     && s'.handles == s.handles + {id})
               && (!outcome.DriverOpened? ==> s'.handles == s.handles && row.pages == {})
               && (outcome.OpenUncertain? ==> row.state == Uncertain && row.effect == Some("browser.session.open"))
               && (outcome.OpenFailed? && persistent ==>
                     row.state == Uncertain && row.effect == Some("browser.profile.write"))
               && (outcome.OpenFailed? && !persistent ==> row.state == SessionFailed && row.effect == None)
  {
    TwoSteps(s, BeginOpen(t, id, persistent, owner), FinishOpen(t, outcome));
    var opening := Session(Opening, 0, persistent, owner, {}, None);
    assert s.tasks[t := OpenTask(id, opening)] - {t} == s.tasks;
    assert s.rows.sessions[id := opening][id := OpenedSession(opening, outcome)]
           == s.rows.sessions[id := OpenedSession(opening, outcome)];
  }

  /** Closing alone: only the owner's active session with a live handle is closed, two revisions on; it is closed
      exactly if the driver closed it, and uncertain otherwise. */
  lemma CloseIsASchedule(s: System, t: Id, id: Id, owner: string, closed: bool)
    requires t !in s.tasks && !SessionLocked(s, id)
    ensures var s' := Run(s, [BeginClose(t, id, owner), FinishClose(t, closed)]);
            var mine := id in s.rows.sessions && s.rows.sessions[id].owner == owner
                        && s.rows.sessions[id].state == Active && id in s.handles;
            && (!mine ==> s' == s)
            && (mine ==>
                  && s'.tasks == s.tasks && s'.handles == s.handles - {id} && id in s'.rows.sessions
                  && s'.rows == s.rows.(sessions := s.rows.sessions[id := s'.rows.sessions[id]])
                  && var before, row := s.rows.sessions[id], s'.rows.sessions[id];
                     && row.owner == owner && row.revision == before.revision + 2 && row.pages == before.pages
                     && row.persistent == before.persistent && row.state == (if closed then Closed else Uncertain)
                     && row.effect == if closed then before.effect
                                      else if before.persistent then Some("browser.profile.snapshot")
                                      else Some("browser.session.close"))
  {
    TwoSteps(s, BeginClose(t, id, owner), FinishClose(t, closed));
    if Usable(s, id, owner) && id in s.handles {
      var row := s.rows.sessions[id];
      var closing := ClosingSession(row);
      assert s.tasks[t := CloseTask(id, closing)] - {t} == s.tasks;
      assert s.rows.sessions[id := closing][id := EndedSession(closing, closed)]
             == s.rows.sessions[id := EndedSession(closing, closed)];
    }
  }

  /* ---------- restarting ---------- */

  function Restarts(t: Id, ids: seq<Id>, n: nat): seq<Event>
    requires n <= |ids|
  {
    if n == 0 then [] else Restarts(t, ids, n - 1) + [RestartOne(t, ids[n - 1])]
  }

  lemma {:induction false} RunThenStep(s: System, events: seq<Event>, e: Event)
    ensures Run(s, events + [e]) == Step(Run(s, events), e)
    decreases |events|
  {
    if events == [] {
      assert [e][1..] == [];
      assert Run(Step(s, e), []) == Step(s, e);
      assert events + [e] == [e];
    } else {
      assert (events + [e])[1..] == events[1..] + [e];
      RunThenStep(Step(s, events[0]), events[1..], e);
    }
  }

  function RestartedRows(rows: map<Id, Session>, effects: map<Id, string>, done: set<Id>): map<Id, Session> {
    map id | id in rows :: if id in done then Restarted(rows[id], effects, id) else rows[id]
  }

  /** A restart that has yet to visit the sessions `seen`, and is done with others. */
  function Halfway(s: System, t: Id, effects: map<Id, string>, seen: map<Id, Session>, done: set<Id>): System {
    Put(s.(rows := s.rows.(sessions := RestartedRows(s.rows.sessions, effects, done))), t, RestartTask(seen, effects))
  }

  lemma OneMoreRow(rows: map<Id, Session>, effects: map<Id, string>, done: set<Id>, id: Id)
    requires id in rows && id !in done
    ensures RestartedRows(rows, effects, done)[id := Restarted(rows[id], effects, id)]
              == RestartedRows(rows, effects, done + {id})
  {}

  lemma OneMoreRestarted(
    s: System, t: Id, effects: map<Id, string>, seen: map<Id, Session>, done: set<Id>, id: Id)
    requires id in s.rows.sessions && id !in done && id in seen && seen[id] == s.rows.sessions[id]
    ensures RestartOneStep(Halfway(s, t, effects, seen, done), t, id)
              == Halfway(s, t, effects, seen - {id}, done + {id})
  {
    OneMoreRow(s.rows.sessions, effects, done, id);
    assert s.tasks[t := RestartTask(seen, effects)][t := RestartTask(seen - {id}, effects)]
           == s.tasks[t := RestartTask(seen - {id}, effects)];
  }

  lemma SeenStays(seen: map<Id, Session>, done: set<Id>, id: Id)
    ensures seen - done - {id} == seen - (done + {id})
  {}

  predicate Distinct(ids: seq<Id>) { forall i, j :: 0 <= i < j < |ids| ==> ids[i] != ids[j] }

  predicate AllSeen(s: System, seen: map<Id, Session>, ids: seq<Id>) {
    forall id :: id in ids ==> id in s.rows.sessions && id in seen && seen[id] == s.rows.sessions[id]
  }

  /** A restart that has visited the first `n` of the sessions. */
  function Visited(s: System, t: Id, effects: map<Id, string>, seen: map<Id, Session>, ids: seq<Id>, n: nat): System
    requires n <= |ids|
  {
    Halfway(s, t, effects, seen - Elements(ids[..n]), Elements(ids[..n]))
  }

  lemma NextRestarted(s: System, t: Id, effects: map<Id, string>, seen: map<Id, Session>, ids: seq<Id>, n: nat)
    requires n < |ids| && Distinct(ids) && AllSeen(s, seen, ids)
    ensures RestartOneStep(Visited(s, t, effects, seen, ids, n), t, ids[n])
              == Visited(s, t, effects, seen, ids, n + 1)
  {
    var done, id := Elements(ids[..n]), ids[n];
    assert id in ids && id !in ids[..n];
    OneMoreRestarted(s, t, effects, seen - done, done, id);
    SeenStays(seen, done, id);
    ElementsOfPrefix(ids, n);
  }

  /** The states that one step after another goes through. */
  function Fold(step: (System, Id) -> System, s: System, ids: seq<Id>, n: nat): System
    requires n <= |ids|
  {
    if n == 0 then s else step(Fold(step, s, ids, n - 1), ids[n - 1])
  }

  lemma {:induction false} RunRestarts(step: (System, Id) -> System, s: System, t: Id, ids: seq<Id>, n: nat)
    requires n <= |ids| && forall x, id :: step(x, id) == Step(x, RestartOne(t, id))
    ensures Run(s, Restarts(t, ids, n)) == Fold(step, s, ids, n)
  {
    if n > 0 {
      RunRestarts(step, s, t, ids, n - 1);
      RunThenStep(s, Restarts(t, ids, n - 1), RestartOne(t, ids[n - 1]));
    }
  }

  lemma {:induction false} FoldVisits(
    step: (System, Id) -> System, states: nat -> System, ids: seq<Id>, n: nat)
    requires n <= |ids| && forall k :: 0 <= k < |ids| ==> step(states(k), ids[k]) == states(k + 1)
    ensures Fold(step, states(0), ids, n) == states(n)
  {
    if n > 0 { FoldVisits(step, states, ids, n - 1); }
  }

  lemma RestartedInOrder(s: System, t: Id, effects: map<Id, string>, seen: map<Id, Session>, ids: seq<Id>)
    requires Distinct(ids) && AllSeen(s, seen, ids)
    ensures Run(Visited(s, t, effects, seen, ids, 0), Restarts(t, ids, |ids|))
              == Visited(s, t, effects, seen, ids, |ids|)
  {
    var step := (x: System, id: Id) => RestartOneStep(x, t, id);
    var states := (k: nat) => if k <= |ids| then Visited(s, t, effects, seen, ids, k) else s;
    forall k | 0 <= k < |ids| ensures step(states(k), ids[k]) == states(k + 1) {
      NextRestarted(s, t, effects, seen, ids, k);
    }
    RunRestarts(step, states(0), t, ids, |ids|);
    FoldVisits(step, states, ids, |ids|);
  }

  lemma AllVisited(s: System, t: Id, effects: map<Id, string>, ids: seq<Id>)
    requires t !in s.tasks && UnresolvedEffects(s.rows, effects) && Distinct(ids)
    requires forall id :: id in ids <==>
               id in s.rows.sessions && s.rows.sessions[id].state in {Opening, Active, Closing}
    ensures Run(BeginRestartStep(s, t, effects), Restarts(t, ids, |ids|)).rows
              == s.rows.(sessions := RestartedRows(s.rows.sessions, effects, Elements(ids)))
  {
    var seen := LiveSessions(s);
    NothingVisited(s, t, effects, ids);
    assert ids[..|ids|] == ids;
    RestartedInOrder(s, t, effects, seen, ids);
  }

  function LiveSessions(s: System): map<Id, Session> {
    map id | id in s.rows.sessions && LiveState(s.rows.sessions[id].state) :: s.rows.sessions[id]
  }

  lemma NothingVisited(s: System, t: Id, effects: map<Id, string>, ids: seq<Id>)
    requires t !in s.tasks && UnresolvedEffects(s.rows, effects)
    ensures BeginRestartStep(s, t, effects) == Visited(s, t, effects, LiveSessions(s), ids, 0)
  {
    assert RestartedRows(s.rows.sessions, effects, {}) == s.rows.sessions;
    assert ids[..0] == [] && Elements<Id>([]) == {} && LiveSessions(s) - {} == LiveSessions(s);
  }

  predicate OthersStay(r: Rows, r': Rows, ids: seq<Id>) {
    && r' == r.(sessions := r'.sessions) && r'.sessions.Keys == r.sessions.Keys
    && forall id :: id in r.sessions && id !in ids ==> r'.sessions[id] == r.sessions[id]
  }

  /** A restart alone: once every live session was visited, in whatever order, each is as `ReconcileAll` leaves it:
      uncertain with its unresolved effect or lost, one revision on. No other row changed. */
  lemma RestartIsASchedule(s: System, t: Id, effects: map<Id, string>, ids: seq<Id>)
    requires t !in s.tasks && UnresolvedEffects(s.rows, effects)
    requires Distinct(ids)
    requires forall id :: id in ids <==>
               id in s.rows.sessions && s.rows.sessions[id].state in {Opening, Active, Closing}
    ensures var r' := Run(BeginRestartStep(s, t, effects), Restarts(t, ids, |ids|)).rows;
            && OthersStay(s.rows, r', ids)
            && forall id :: id in ids ==> IsReconciled(s.rows, id, r'.sessions[id])
  {
    AllVisited(s, t, effects, ids);
    forall id | id in ids ensures IsReconciled(s.rows, id, Restarted(s.rows.sessions[id], effects, id)) {
      RestartedIsReconciled(s.rows, effects, id);
    }
  }
}
