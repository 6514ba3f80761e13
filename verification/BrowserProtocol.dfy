/** Interleavings of browser calls with each other, with a restart's reconciliation, and with
    crashes: every transaction and every driver call is one event. */
module BrowserProtocol {
  import opened Outcomes
  import opened BrowserSessions

  datatype ActStep = Checked | Journaled | Dispatched(outcome: ActOutcome) | Settled(result: ActionResult)

  /** A call in progress, with the session row it works from. */
  datatype Task =
    | OpenTask(id: Id, session: Session)
    | ActTask(step: ActStep, key: Id, request: Request, session: Session)
    | ObserveTask(id: Id, page: string, revision: nat)
    | CloseTask(id: Id, session: Session)
    | RestartTask(seen: map<Id, Session>, effects: map<Id, string>)

  /** `handles` and `tasks` die with the process. `dispatches` counts the driver calls of each
      key, `acts` records how its last one ended, and `effects` which revision a settled action
      gave its session; the service keeps none of them, and no step reads them. */
  datatype System = System(
    rows: Rows, handles: set<Id>, tasks: map<Id, Task>,
    dispatches: map<Id, nat>, acts: map<Id, ActOutcome>, effects: map<Id, (Id, nat)>)

  const START := System(Rows(map[], map[], map[]), {}, map[], map[], map[], map[])

  datatype Event =
    | BeginOpen(t: Id, id: Id, persistent: bool, owner: string)
    | FinishOpen(t: Id, result: OpenOutcome)
    | BeginObserve(t: Id, id: Id, page: string, revision: nat, owner: string)
    | FinishObserve(t: Id, o: Id, expires: int)
    | BeginAct(t: Id, key: Id, request: Request, owner: string, authorized: bool, now: int)
    | JournalAct(t: Id)
    | Dispatch(t: Id, outcome: ActOutcome)
    | SettleAct(t: Id)
    | CompleteAct(t: Id)
    | BeginClose(t: Id, id: Id, owner: string)
    | FinishClose(t: Id, closed: bool)
    | BeginRestart(t: Id, effects: map<Id, string>)
    | RestartOne(t: Id, id: Id)
    | Crash

  function Drop(s: System, t: Id): System { s.(tasks := s.tasks - {t}) }
  function Put(s: System, t: Id, task: Task): System { s.(tasks := s.tasks[t := task]) }

  /** The task's compare-and-swap; a conflict ends the task. */
  function Swap(s: System, id: Id, row: Session, expected: nat): System {
    var r := Replace(s.rows, id, row, expected);
    if r.Refused? then s else s.(rows := r.value)
  }

  function Swapped(s: System, id: Id, expected: nat): bool {
    id in s.rows.sessions && s.rows.sessions[id].revision == expected
  }

  predicate SessionLocked(s: System, id: Id) {
    exists t :: t in s.tasks && Locks(s.tasks[t], id)
  }

  predicate Locks(task: Task, id: Id) {
    match task
    case ActTask(_, _, request, _) => request.session == id
    case ObserveTask(i, _, _) => i == id
    case CloseTask(i, _) => i == id
    case OpenTask(_, _) => false
    case RestartTask(_, _) => false
  }

  predicate Usable(s: System, id: Id, owner: string) {
    id in s.rows.sessions && s.rows.sessions[id].owner == owner && s.rows.sessions[id].state == Active
  }

  /* ---------- opening, observing, closing ---------- */

  function BeginOpenStep(s: System, t: Id, id: Id, persistent: bool, owner: string): System {
    if t in s.tasks || id in s.rows.sessions then s
    else
      var row := Session(Opening, 0, persistent, owner, {}, None);
      Put(s, t, OpenTask(id, row)).(rows := InsertSession(s.rows, id, row))
  }

  function FinishOpenStep(s: System, t: Id, outcome: OpenOutcome): System {
    if t !in s.tasks || !s.tasks[t].OpenTask? then s
    else
      var task := s.tasks[t];
      var s' := Drop(Swap(s, task.id, OpenedSession(task.session, outcome), 0), t);
      if outcome.DriverOpened? && Swapped(s, task.id, 0) then s'.(handles := s'.handles + {task.id}) else s'
  }

  function BeginObserveStep(s: System, t: Id, id: Id, page: string, revision: nat, owner: string): System {
    if t in s.tasks || SessionLocked(s, id) || !Usable(s, id, owner) || s.rows.sessions[id].revision != revision
       || page !in s.rows.sessions[id].pages || id !in s.handles then s
    else Put(s, t, ObserveTask(id, page, revision))
  }

  function FinishObserveStep(s: System, t: Id, o: Id, expires: int): System {
    if t !in s.tasks || !s.tasks[t].ObserveTask? || o in s.rows.observations then s
    else
      var task := s.tasks[t];
      Drop(s, t).(rows := s.rows.(observations :=
        s.rows.observations[o := Observation(task.id, task.page, task.revision, expires)]))
  }

  function BeginCloseStep(s: System, t: Id, id: Id, owner: string): System {
    if t in s.tasks || SessionLocked(s, id) || !Usable(s, id, owner) || id !in s.handles then s
    else
      var row := s.rows.sessions[id];
      Put(Swap(s, id, ClosingSession(row), row.revision), t, CloseTask(id, ClosingSession(row)))
  }

  function FinishCloseStep(s: System, t: Id, closed: bool): System {
    if t !in s.tasks || !s.tasks[t].CloseTask? then s
    else
      var task := s.tasks[t];
      var row := task.session;
      Drop(Swap(s, task.id, EndedSession(row, closed), row.revision), t).(handles := s.handles - {task.id})
  }

  /* ---------- acting ---------- */

  /** The checks of an action that no journal row answers. */
  function BeginActStep(
    s: System, t: Id, key: Id, request: Request, owner: string, authorized: bool, now: int): System {
    if t in s.tasks || SessionLocked(s, request.session) || key in s.rows.actions
       || !MayAct(s.rows, request, owner, authorized, now) then s
    else Put(s, t, ActTask(Checked, key, request, s.rows.sessions[request.session]))
  }

  predicate AtStep(s: System, t: Id) { t in s.tasks && s.tasks[t].ActTask? }

  /** Insert the journal row; the unique key makes a second insertion fail. */
  function JournalStep(s: System, t: Id): System {
    if !AtStep(s, t) || !s.tasks[t].step.Checked? then s
    else
      var task := s.tasks[t];
      if task.key in s.rows.actions then Drop(s, t)
      else Put(s, t, task.(step := Journaled)).(rows := Journal(s.rows, task.key, task.request))
  }

  function Count(dispatches: map<Id, nat>, key: Id): nat { if key in dispatches then dispatches[key] else 0 }

  function DispatchStep(s: System, t: Id, outcome: ActOutcome): System {
    if !AtStep(s, t) || !s.tasks[t].step.Journaled? then s
    else
      var task := s.tasks[t];
      if task.request.session !in s.handles then Drop(s, t)
      else Put(s, t, task.(step := Dispatched(outcome)))
             .(dispatches := s.dispatches[task.key := Count(s.dispatches, task.key) + 1],
               acts := s.acts[task.key := outcome])
  }

  function SettleStep(s: System, t: Id): System {
    if !AtStep(s, t) || !s.tasks[t].step.Dispatched? then s
    else
      var task := s.tasks[t];
      var outcome := task.step.outcome;
      var settled := Settle(s.rows, task.request, task.session, outcome);
      if settled.Refused? then Drop(s, t)
      else
        var s' := Put(s, t, task.(step := Settled(ResultOf(task.session, outcome)))).(rows := settled.value);
        if SettledSession(task.session, task.request, outcome) == None then s'
        else s'.(effects := s.effects[task.key := (task.request.session, task.session.revision + 1)])
  }

  function CompleteStep(s: System, t: Id): System {
    if !AtStep(s, t) || !s.tasks[t].step.Settled? || s.tasks[t].key !in s.rows.actions then s
    else Drop(s, t).(rows := Complete(s.rows, s.tasks[t].key, s.tasks[t].step.result))
  }

  /* ---------- restarting ---------- */

  ghost function BeginRestartStep(s: System, t: Id, effects: map<Id, string>): System {
    if t in s.tasks || !UnresolvedEffects(s.rows, effects) then s
    else
      var seen := map id | id in s.rows.sessions && LiveState(s.rows.sessions[id].state) :: s.rows.sessions[id];
      Put(s, t, RestartTask(seen, effects))
  }

  function RestartOneStep(s: System, t: Id, id: Id): System {
    if t !in s.tasks || !s.tasks[t].RestartTask? || id !in s.tasks[t].seen then s
    else
      var task := s.tasks[t];
      var row := task.seen[id];
      if !Swapped(s, id, row.revision) then Drop(s, t)
      else Put(Swap(s, id, Restarted(row, task.effects, id), row.revision), t, task.(seen := task.seen - {id}))
  }

  ghost function Step(s: System, e: Event): System {
    match e
    case BeginOpen(t, id, persistent, owner) => BeginOpenStep(s, t, id, persistent, owner)
    case FinishOpen(t, result) => FinishOpenStep(s, t, result)
    case BeginObserve(t, id, page, revision, owner) => BeginObserveStep(s, t, id, page, revision, owner)
    case FinishObserve(t, o, expires) => FinishObserveStep(s, t, o, expires)
    case BeginAct(t, key, request, owner, authorized, now) => BeginActStep(s, t, key, request, owner, authorized, now)
    case JournalAct(t) => JournalStep(s, t)
    case Dispatch(t, outcome) => DispatchStep(s, t, outcome)
    case SettleAct(t) => SettleStep(s, t)
    case CompleteAct(t) => CompleteStep(s, t)
    case BeginClose(t, id, owner) => BeginCloseStep(s, t, id, owner)
    case FinishClose(t, closed) => FinishCloseStep(s, t, closed)
    case BeginRestart(t, effects) => BeginRestartStep(s, t, effects)
    case RestartOne(t, id) => RestartOneStep(s, t, id)
    case Crash => s.(handles := {}, tasks := map[])
  }

  ghost function Run(s: System, events: seq<Event>): System
    decreases |events|
  {
    if events == [] then s else Run(Step(s, events[0]), events[1..])
  }
}
