/** What each step of a browser call leaves alone. */
module BrowserFrames {
  import opened BrowserSessions
  import opened BrowserProtocol

  /** At most one task holds the lock of a session. */
  ghost predicate LocksExclusive(s: System) {
    forall t, u, id :: t in s.tasks && u in s.tasks && Locks(s.tasks[t], id) && Locks(s.tasks[u], id) ==> t == u
  }

  /** The session has no handle and will not get one. */
  ghost predicate Severed(s: System, id: Id) {
    id !in s.handles && forall t :: t in s.tasks && s.tasks[t].OpenTask? ==> s.tasks[t].id != id
  }

  /** The tasks that act are those that acted before, and have not moved. */
  ghost predicate SameActTasks(s: System, s': System) {
    && (forall t :: t in s.tasks && s.tasks[t].ActTask? ==> t in s'.tasks && s'.tasks[t] == s.tasks[t])
    && (forall t :: t in s'.tasks && s'.tasks[t].ActTask? ==> t in s.tasks && s'.tasks[t] == s.tasks[t])
  }

  predicate ObservationsStay(r: Rows, r': Rows) {
    forall o :: o in r.observations ==> o in r'.observations && r'.observations[o] == r.observations[o]
  }

  /** No known session regains a handle, observations stay, and locks stay exclusive. */
  ghost predicate Orderly(s: System, s': System) {
    && (forall id :: id in s.rows.sessions && Severed(s, id) ==> Severed(s', id))
    && ObservationsStay(s.rows, s'.rows)
    && (LocksExclusive(s) ==> LocksExclusive(s'))
  }

  /** No task comes to be waiting for the driver's outcome to be settled. */
  ghost predicate NoneDispatched(s: System, s': System) {
    forall t :: AtStep(s', t) && s'.tasks[t].step.Dispatched? ==> t in s.tasks && s'.tasks[t] == s.tasks[t]
  }

  /** A step that is not part of an action. */
  ghost predicate Bystander(s: System, s': System) {
    Orderly(s, s') && SameActTasks(s, s') && s'.acts == s.acts && s'.dispatches == s.dispatches
    && s'.rows.actions == s.rows.actions
  }

  /** Only task `t` changes; it takes no lock that another task holds, and a handle only from its own opening. */
  ghost predicate OneTask(s: System, s': System, t: Id) {
    && (forall u :: u != t ==> (u in s.tasks <==> u in s'.tasks) && (u in s.tasks ==> s'.tasks[u] == s.tasks[u]))
    && (t in s'.tasks ==> forall id :: Locks(s'.tasks[t], id) ==>
       (t in s.tasks && Locks(s.tasks[t], id)) || !SessionLocked(s, id))
    && (t in s'.tasks && s'.tasks[t].OpenTask? ==>
       (t in s.tasks && s'.tasks[t] == s.tasks[t]) || s'.tasks[t].id !in s.rows.sessions)
    && (forall id :: id in s'.handles && id !in s.handles ==>
          t in s.tasks && s.tasks[t].OpenTask? && s.tasks[t].id == id)
  }

  lemma OneTaskIsOrderly(s: System, s': System, t: Id)
    requires OneTask(s, s', t) && ObservationsStay(s.rows, s'.rows)
    ensures Orderly(s, s')
  {
    if LocksExclusive(s) {
      forall u, v, id | u in s'.tasks && v in s'.tasks && Locks(s'.tasks[u], id)
        && Locks(s'.tasks[v], id) ensures u == v {
        assert u != t ==> u in s.tasks && Locks(s.tasks[u], id);
        assert v != t ==> v in s.tasks && Locks(s.tasks[v], id);
      }
    }
  }

  lemma BeginOpenFrame(s: System, t: Id, id: Id, persistent: bool, owner: string)
    ensures Bystander(s, BeginOpenStep(s, t, id, persistent, owner))
  {
    OneTaskIsOrderly(s, BeginOpenStep(s, t, id, persistent, owner), t);
  }

  lemma FinishOpenMovesOne(s: System, t: Id, outcome: OpenOutcome)
    ensures OneTask(s, FinishOpenStep(s, t, outcome), t) && ObservationsStay(s.rows, FinishOpenStep(s, t, outcome).rows)
  {}

  lemma FinishOpenFrame(s: System, t: Id, outcome: OpenOutcome)
    ensures Bystander(s, FinishOpenStep(s, t, outcome))
  {
    FinishOpenMovesOne(s, t, outcome);
    OneTaskIsOrderly(s, FinishOpenStep(s, t, outcome), t);
  }

  lemma BeginObserveFrame(s: System, t: Id, id: Id, page: string, revision: nat, owner: string)
    ensures Bystander(s, BeginObserveStep(s, t, id, page, revision, owner))
  {
    OneTaskIsOrderly(s, BeginObserveStep(s, t, id, page, revision, owner), t);
  }

  lemma FinishObserveFrame(s: System, t: Id, o: Id, expires: int)
    ensures Bystander(s, FinishObserveStep(s, t, o, expires))
  {
    OneTaskIsOrderly(s, FinishObserveStep(s, t, o, expires), t);
  }

  lemma BeginCloseFrame(s: System, t: Id, id: Id, owner: string)
    ensures Bystander(s, BeginCloseStep(s, t, id, owner))
  {
    OneTaskIsOrderly(s, BeginCloseStep(s, t, id, owner), t);
  }

  lemma FinishCloseMovesOne(s: System, t: Id, closed: bool)
    ensures OneTask(s, FinishCloseStep(s, t, closed), t) && ObservationsStay(s.rows, FinishCloseStep(s, t, closed).rows)
  {}

  lemma FinishCloseFrame(s: System, t: Id, closed: bool)
    ensures Bystander(s, FinishCloseStep(s, t, closed))
  {
    FinishCloseMovesOne(s, t, closed);
    OneTaskIsOrderly(s, FinishCloseStep(s, t, closed), t);
  }

  lemma BeginRestartMovesOne(s: System, t: Id, effects: map<Id, string>)
    ensures OneTask(s, BeginRestartStep(s, t, effects), t)
            && ObservationsStay(s.rows, BeginRestartStep(s, t, effects).rows)
  {}

  lemma BeginRestartFrame(s: System, t: Id, effects: map<Id, string>)
    ensures Bystander(s, BeginRestartStep(s, t, effects))
  {
    BeginRestartMovesOne(s, t, effects);
    OneTaskIsOrderly(s, BeginRestartStep(s, t, effects), t);
  }

  lemma RestartOneMovesOne(s: System, t: Id, id: Id)
    ensures OneTask(s, RestartOneStep(s, t, id), t) && ObservationsStay(s.rows, RestartOneStep(s, t, id).rows)
  {}

  lemma RestartOneFrame(s: System, t: Id, id: Id)
    ensures Bystander(s, RestartOneStep(s, t, id))
  {
    RestartOneMovesOne(s, t, id);
    OneTaskIsOrderly(s, RestartOneStep(s, t, id), t);
  }

  predicate OfAction(e: Event) { e.BeginAct? || e.JournalAct? || e.Dispatch? || e.SettleAct? || e.CompleteAct? }

  lemma BystandersFrame(s: System, e: Event)
    requires !OfAction(e) && !e.Crash?
    ensures Bystander(s, Step(s, e))
  {
    match e
    case BeginOpen(t, id, persistent, owner) => BeginOpenFrame(s, t, id, persistent, owner);
    case FinishOpen(t, result) => FinishOpenFrame(s, t, result);
    case BeginObserve(t, id, page, revision, owner) => BeginObserveFrame(s, t, id, page, revision, owner);
    case FinishObserve(t, o, expires) => FinishObserveFrame(s, t, o, expires);
    case BeginClose(t, id, owner) => BeginCloseFrame(s, t, id, owner);
    case FinishClose(t, closed) => FinishCloseFrame(s, t, closed);
    case BeginRestart(t, effects) => BeginRestartFrame(s, t, effects);
    case RestartOne(t, id) => RestartOneFrame(s, t, id);
  }

  lemma BeginActFrame(s: System, t: Id, key: Id, request: Request, owner: string, authorized: bool, now: int)
    ensures Orderly(s, BeginActStep(s, t, key, request, owner, authorized, now))
    ensures BeginActStep(s, t, key, request, owner, authorized, now).rows == s.rows
    ensures NoneDispatched(s, BeginActStep(s, t, key, request, owner, authorized, now))
    ensures BeginActStep(s, t, key, request, owner, authorized, now).acts == s.acts
    ensures BeginActStep(s, t, key, request, owner, authorized, now).dispatches == s.dispatches
  {
    OneTaskIsOrderly(s, BeginActStep(s, t, key, request, owner, authorized, now), t);
  }

  lemma JournalFrame(s: System, t: Id)
    ensures NoneDispatched(s, JournalStep(s, t))
    ensures Orderly(s, JournalStep(s, t)) && JournalStep(s, t).acts == s.acts
    ensures JournalStep(s, t).rows.sessions == s.rows.sessions && JournalStep(s, t).dispatches == s.dispatches
  {
    OneTaskIsOrderly(s, JournalStep(s, t), t);
  }

  lemma DispatchFrame(s: System, t: Id, outcome: ActOutcome)
    ensures Orderly(s, DispatchStep(s, t, outcome)) && DispatchStep(s, t, outcome).rows == s.rows
  {
    OneTaskIsOrderly(s, DispatchStep(s, t, outcome), t);
  }

  lemma SettleMovesOne(s: System, t: Id)
    ensures OneTask(s, SettleStep(s, t), t) && ObservationsStay(s.rows, SettleStep(s, t).rows)
  {}

  lemma SettleFrame(s: System, t: Id)
    ensures NoneDispatched(s, SettleStep(s, t))
    ensures Orderly(s, SettleStep(s, t)) && SettleStep(s, t).acts == s.acts
            && SettleStep(s, t).dispatches == s.dispatches
    ensures SettleStep(s, t).rows.actions == s.rows.actions
  {
    SettleMovesOne(s, t);
    OneTaskIsOrderly(s, SettleStep(s, t), t);
  }

  lemma CompleteFrame(s: System, t: Id)
    ensures NoneDispatched(s, CompleteStep(s, t))
    ensures Orderly(s, CompleteStep(s, t)) && CompleteStep(s, t).acts == s.acts
    ensures CompleteStep(s, t).rows.sessions == s.rows.sessions && CompleteStep(s, t).dispatches == s.dispatches
  {
    OneTaskIsOrderly(s, CompleteStep(s, t), t);
  }
}
