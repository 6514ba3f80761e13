/** What every run of the browser supervisor keeps: one dispatch per key, revisions that grow by
    one until a terminal state, and at most one settled effect per observation. */
module BrowserSafety {
  import opened Outcomes
  import opened BrowserSessions
  import opened BrowserProtocol

  /* ---------- sessions ---------- */

  /** One step leaves a session row alone, or raises its revision by one from a live state. */
  ghost predicate SessionAges(r: Session, r': Session) {
    r' == r || (r'.revision == r.revision + 1 && LiveState(r.state))
  }

  ghost predicate SessionsAge(r: Rows, r': Rows) {
    forall id :: id in r.sessions ==> id in r'.sessions && SessionAges(r.sessions[id], r'.sessions[id])
  }

  /** The row a task works from is the current one as long as the revision is. */
  ghost predicate Current(r: Rows, id: Id, seen: Session) {
    && id in r.sessions && seen.revision <= r.sessions[id].revision && LiveState(seen.state)
    && (seen.revision == r.sessions[id].revision ==> r.sessions[id] == seen)
  }

  ghost predicate TaskCurrent(r: Rows, task: Task) {
    match task
    case OpenTask(id, session) => Current(r, id, session) && session.revision == 0 && session.state == Opening
    case ActTask(_, _, request, session) => Current(r, request.session, session) && session.revision == request.revision
      && session.state == Active
    case CloseTask(id, session) => Current(r, id, session) && session.state == Closing
    case ObserveTask(_, _, _) => true
    case RestartTask(seen, _) => forall id :: id in seen ==> Current(r, id, seen[id])
  }

  ghost predicate TasksCurrent(s: System) {
    forall t :: t in s.tasks ==> TaskCurrent(s.rows, s.tasks[t])
  }

  lemma CurrentAges(r: Rows, r': Rows, id: Id, seen: Session)
    requires Current(r, id, seen) && SessionsAge(r, r')
    ensures Current(r', id, seen)
  {
    assert SessionAges(r.sessions[id], r'.sessions[id]);
  }

  lemma TaskAges(r: Rows, r': Rows, task: Task)
    requires TaskCurrent(r, task) && SessionsAge(r, r')
    ensures TaskCurrent(r', task)
  {
    match task
    case OpenTask(id, session) => CurrentAges(r, r', id, session);
    case ActTask(_, _, request, session) => CurrentAges(r, r', request.session, session);
    case CloseTask(id, session) => CurrentAges(r, r', id, session);
    case ObserveTask(_, _, _) =>
    case RestartTask(seen, _) => forall id | id in seen ensures Current(r', id, seen[id]) {
      CurrentAges(r, r', id, seen[id]);
    }
  }

  /** A compare-and-swap from a current live row ages the sessions. */
  lemma SwapAges(s: System, id: Id, seen: Session, row: Session)
    requires Current(s.rows, id, seen) && row.revision == seen.revision + 1
    ensures SessionsAge(s.rows, Swap(s, id, row, seen.revision).rows)
  {}

  lemma SameSessionsAge(r: Rows, r': Rows)
    requires forall id :: id in r.sessions ==> id in r'.sessions && r'.sessions[id] == r.sessions[id]
    ensures SessionsAge(r, r')
  {}

  /* ---------- the journal ---------- */

  /** The task is between inserting its journal row and completing it. */
  predicate InFlight(task: Task) { task.ActTask? && !task.step.Checked? }

  ghost predicate OwnsRow(s: System, task: Task)
    requires InFlight(task)
  {
    && task.key in s.rows.actions && s.rows.actions[task.key] == ActionRow(task.request, None)
    && (task.step.Journaled? ==> Count(s.dispatches, task.key) == 0)
    && (task.step.Settled? && TookEffect(Some(task.step.result)) ==> task.key in s.effects)
    && (task.key in s.effects ==> task.step.Settled?)
  }

  ghost predicate Journals(s: System) {
    && (forall t :: t in s.tasks && InFlight(s.tasks[t]) ==> OwnsRow(s, s.tasks[t]))
    && (forall t, u :: t in s.tasks && u in s.tasks && t != u && InFlight(s.tasks[t]) && InFlight(s.tasks[u]) ==>
          s.tasks[t].key != s.tasks[u].key)
    && (forall k :: Count(s.dispatches, k) <= 1 && (Count(s.dispatches, k) > 0 ==> k in s.rows.actions))
  }

  /** A request that was checked names a recorded observation of its session, page and revision. */
  ghost predicate Observed(r: Rows, request: Request) {
    && request.observation in r.observations
    && r.observations[request.observation].session == request.session
       && r.observations[request.observation].page == request.page
    && r.observations[request.observation].revision == request.revision
  }

  predicate TookEffect(result: Option<ActionResult>) {
    result.Some? && result.value.state in {Completed, ActionUncertain}
  }

  /** A settled effect is the step from its request's revision to the next. */
  ghost predicate EffectSound(s: System, k: Id)
    requires k in s.effects
  {
    && k in s.rows.actions
    && s.effects[k] == (s.rows.actions[k].request.session, s.rows.actions[k].request.revision + 1)
    && s.effects[k].0 in s.rows.sessions && s.effects[k].1 <= s.rows.sessions[s.effects[k].0].revision
  }

  ghost predicate Effects(s: System) {
    && (forall k :: k in s.effects ==> EffectSound(s, k))
    && (forall k, l :: k in s.effects && l in s.effects && k != l ==> s.effects[k] != s.effects[l])
    && (forall k :: k in s.rows.actions ==> Observed(s.rows, s.rows.actions[k].request))
    && (forall k :: k in s.rows.actions && TookEffect(s.rows.actions[k].result) ==> k in s.effects)
    && (forall t :: t in s.tasks && s.tasks[t].ActTask? ==> Observed(s.rows, s.tasks[t].request))
  }

  ghost predicate Inv(s: System) { TasksCurrent(s) && Journals(s) && Effects(s) }

  /* ---------- steps that touch no journal row ---------- */

  /** Session rows age, observations are added, a task that is not acting comes or goes. */
  lemma SessionStepKeeps(s: System, s': System, t: Id)
    requires Inv(s) && SessionsAge(s.rows, s'.rows)
    requires s'.rows.actions == s.rows.actions && s'.dispatches == s.dispatches && s'.effects == s.effects
    requires forall o :: o in s.rows.observations ==>
             o in s'.rows.observations && s'.rows.observations[o] == s.rows.observations[o]
    requires forall u :: u in s'.tasks && u != t ==> u in s.tasks && s'.tasks[u] == s.tasks[u]
    requires t in s'.tasks ==> TaskCurrent(s'.rows, s'.tasks[t]) && !InFlight(s'.tasks[t])
    requires t in s'.tasks && s'.tasks[t].ActTask? ==> Observed(s'.rows, s'.tasks[t].request)
    ensures Inv(s')
  {
    forall u | u in s'.tasks ensures TaskCurrent(s'.rows, s'.tasks[u]) {
      if u != t { TaskAges(s.rows, s'.rows, s.tasks[u]); }
    }
    SessionEffects(s, s', t);
    forall u | u in s'.tasks && InFlight(s'.tasks[u]) ensures OwnsRow(s', s'.tasks[u]) {
      assert OwnsRow(s, s.tasks[u]);
    }
  }

  lemma SessionEffects(s: System, s': System, t: Id)
    requires Effects(s) && SessionsAge(s.rows, s'.rows)
    requires s'.rows.actions == s.rows.actions && s'.effects == s.effects
    requires forall o :: o in s.rows.observations ==>
             o in s'.rows.observations && s'.rows.observations[o] == s.rows.observations[o]
    requires forall u :: u in s'.tasks && u != t ==> u in s.tasks && s'.tasks[u] == s.tasks[u]
    requires t in s'.tasks && s'.tasks[t].ActTask? ==> Observed(s'.rows, s'.tasks[t].request)
    ensures Effects(s')
  {
    forall k | k in s'.effects ensures EffectSound(s', k) {
      assert EffectSound(s, k) && SessionAges(s.rows.sessions[s.effects[k].0], s'.rows.sessions[s.effects[k].0]);
    }
    forall k | k in s'.rows.actions ensures Observed(s'.rows, s'.rows.actions[k].request) {
      assert Observed(s.rows, s.rows.actions[k].request);
    }
    forall u | u in s'.tasks && s'.tasks[u].ActTask? && u != t ensures Observed(s'.rows, s'.tasks[u].request) {
      assert Observed(s.rows, s.tasks[u].request);
    }
  }

  lemma NothingAges(s: System)
    ensures SessionsAge(s.rows, s.rows)
  {}

  lemma BeginOpenKeeps(s: System, t: Id, id: Id, persistent: bool, owner: string)
    requires Inv(s)
    ensures Inv(BeginOpenStep(s, t, id, persistent, owner))
    ensures SessionsAge(s.rows, BeginOpenStep(s, t, id, persistent, owner).rows)
  {
    NothingAges(s);
    if t !in s.tasks && id !in s.rows.sessions {
      SessionStepKeeps(s, BeginOpenStep(s, t, id, persistent, owner), t);
    }
  }

  lemma FinishOpenKeeps(s: System, t: Id, outcome: OpenOutcome)
    requires Inv(s)
    ensures Inv(FinishOpenStep(s, t, outcome))
    ensures SessionsAge(s.rows, FinishOpenStep(s, t, outcome).rows)
  {
    NothingAges(s);
    if t in s.tasks && s.tasks[t].OpenTask? {
      var task := s.tasks[t];
      assert TaskCurrent(s.rows, task);
      SwapAges(s, task.id, task.session, OpenedSession(task.session, outcome));
      SessionStepKeeps(s, FinishOpenStep(s, t, outcome), t);
    }
  }

  lemma BeginObserveKeeps(s: System, t: Id, id: Id, page: string, revision: nat, owner: string)
    requires Inv(s)
    ensures Inv(BeginObserveStep(s, t, id, page, revision, owner))
    ensures SessionsAge(s.rows, BeginObserveStep(s, t, id, page, revision, owner).rows)
  {
    NothingAges(s);
    var s' := BeginObserveStep(s, t, id, page, revision, owner);
    if s' != s {
      SessionStepKeeps(s, s', t);
    }
  }

  lemma FinishObserveKeeps(s: System, t: Id, o: Id, expires: int)
    requires Inv(s)
    ensures Inv(FinishObserveStep(s, t, o, expires))
    ensures SessionsAge(s.rows, FinishObserveStep(s, t, o, expires).rows)
  {
    NothingAges(s);
    var s' := FinishObserveStep(s, t, o, expires);
    if s' != s {
      SameSessionsAge(s.rows, s'.rows);
      SessionStepKeeps(s, s', t);
    }
  }

  lemma BeginCloseKeeps(s: System, t: Id, id: Id, owner: string)
    requires Inv(s)
    ensures Inv(BeginCloseStep(s, t, id, owner))
    ensures SessionsAge(s.rows, BeginCloseStep(s, t, id, owner).rows)
  {
    NothingAges(s);
    var s' := BeginCloseStep(s, t, id, owner);
    if s' != s {
      var row := s.rows.sessions[id];
      SwapAges(s, id, row, row.(state := Closing, revision := row.revision + 1));
      SessionStepKeeps(s, s', t);
    }
  }

  lemma FinishCloseKeeps(s: System, t: Id, closed: bool)
    requires Inv(s)
    ensures Inv(FinishCloseStep(s, t, closed))
    ensures SessionsAge(s.rows, FinishCloseStep(s, t, closed).rows)
  {
    NothingAges(s);
    if t in s.tasks && s.tasks[t].CloseTask? {
      assert TaskCurrent(s.rows, s.tasks[t]);
      SessionStepKeeps(s, FinishCloseStep(s, t, closed), t);
    }
  }

  lemma BeginRestartKeeps(s: System, t: Id, effects: map<Id, string>)
    requires Inv(s)
    ensures Inv(BeginRestartStep(s, t, effects))
    ensures SessionsAge(s.rows, BeginRestartStep(s, t, effects).rows)
  {
    NothingAges(s);
    var s' := BeginRestartStep(s, t, effects);
    if s' != s {
      SessionStepKeeps(s, s', t);
    }
  }

  lemma RestartOneKeeps(s: System, t: Id, id: Id)
    requires Inv(s)
    ensures Inv(RestartOneStep(s, t, id))
    ensures SessionsAge(s.rows, RestartOneStep(s, t, id).rows)
  {
    NothingAges(s);
    if t in s.tasks && s.tasks[t].RestartTask? && id in s.tasks[t].seen {
      var task, s' := s.tasks[t], RestartOneStep(s, t, id);
      assert TaskCurrent(s.rows, task) && Current(s.rows, id, task.seen[id]);
      SwapAges(s, id, task.seen[id], Restarted(task.seen[id], task.effects, id));
      if t in s'.tasks { TaskAges(s.rows, s'.rows, task); }
      SessionStepKeeps(s, s', t);
    }
  }

  lemma CrashKeeps(s: System)
    requires Inv(s)
    ensures Inv(s.(handles := {}, tasks := map[]))
  {}

  /* ---------- steps of an action ---------- */

  lemma BeginActKeeps(s: System, t: Id, key: Id, request: Request, owner: string, authorized: bool, now: int)
    requires Inv(s)
    ensures Inv(BeginActStep(s, t, key, request, owner, authorized, now))
    ensures SessionsAge(s.rows, BeginActStep(s, t, key, request, owner, authorized, now).rows)
  {
    NothingAges(s);
    var s' := BeginActStep(s, t, key, request, owner, authorized, now);
    if s' != s {
      SessionStepKeeps(s, s', t);
    }
  }

  /** The task `t` moves on; the other tasks, and the journal rows they own, stay as they are. */
  lemma OthersKeepRows(s: System, s': System, t: Id)
    requires Inv(s) && t in s.tasks && s.tasks[t].ActTask?
    requires forall u :: u in s'.tasks && u != t ==> u in s.tasks && s'.tasks[u] == s.tasks[u]
    requires forall k :: k in s.rows.actions && k != s.tasks[t].key ==>
             k in s'.rows.actions && s'.rows.actions[k] == s.rows.actions[k]
    requires forall k :: k != s.tasks[t].key ==>
                Count(s'.dispatches, k) == Count(s.dispatches, k) && (k in s'.effects <==> k in s.effects)
    requires InFlight(s.tasks[t]) || s.tasks[t].key !in s.rows.actions
    ensures forall u :: u in s'.tasks && u != t && InFlight(s'.tasks[u]) ==>
              s'.tasks[u].key != s.tasks[t].key && OwnsRow(s', s'.tasks[u])
  {
    forall u | u in s'.tasks && u != t && InFlight(s'.tasks[u])
      ensures s'.tasks[u].key != s.tasks[t].key && OwnsRow(s', s'.tasks[u])
    {
      assert OwnsRow(s, s.tasks[u]);
    }
  }

  lemma TasksAge(s: System, s': System, t: Id)
    requires TasksCurrent(s) && SessionsAge(s.rows, s'.rows)
    requires forall u :: u in s'.tasks && u != t ==> u in s.tasks && s'.tasks[u] == s.tasks[u]
    requires t in s'.tasks ==> TaskCurrent(s'.rows, s'.tasks[t])
    ensures TasksCurrent(s')
  {
    forall u | u in s'.tasks ensures TaskCurrent(s'.rows, s'.tasks[u]) {
      if u != t { TaskAges(s.rows, s'.rows, s.tasks[u]); }
    }
  }

  lemma EffectHasRow(s: System, k: Id)
    requires Effects(s) && k !in s.rows.actions
    ensures k !in s.effects
  {}

  /** The journal after a step of the task `t`, from what the step did for its own key. */
  lemma JournalsAfter(s: System, s': System, t: Id)
    requires Inv(s) && t in s.tasks && s.tasks[t].ActTask?
    requires forall u :: u in s'.tasks && u != t ==> u in s.tasks && s'.tasks[u] == s.tasks[u]
    requires forall k :: k in s.rows.actions && k != s.tasks[t].key ==>
             k in s'.rows.actions && s'.rows.actions[k] == s.rows.actions[k]
    requires forall k :: k != s.tasks[t].key ==>
                Count(s'.dispatches, k) == Count(s.dispatches, k) && (k in s'.effects <==> k in s.effects)
    requires InFlight(s.tasks[t]) || s.tasks[t].key !in s.rows.actions
    requires s.tasks[t].key in s'.rows.actions && Count(s'.dispatches, s.tasks[t].key) <= 1
    requires t in s'.tasks ==> InFlight(s'.tasks[t]) && s'.tasks[t].key == s.tasks[t].key && OwnsRow(s', s'.tasks[t])
    ensures Journals(s')
  {
    OthersKeepRows(s, s', t);
    forall k ensures Count(s'.dispatches, k) <= 1 && (Count(s'.dispatches, k) > 0 ==> k in s'.rows.actions) {
      if k != s.tasks[t].key { assert Count(s.dispatches, k) <= 1; }
    }
  }

  lemma JournalEffects(s: System, t: Id)
    requires Inv(s) && AtStep(s, t) && s.tasks[t].step.Checked? && s.tasks[t].key !in s.rows.actions
    ensures s.tasks[t].key !in s.effects && Effects(JournalStep(s, t))
  {
    var s', key := JournalStep(s, t), s.tasks[t].key;
    EffectHasRow(s, key);
    forall k | k in s'.effects ensures EffectSound(s', k) { assert EffectSound(s, k); }
  }

  lemma JournalKeeps(s: System, t: Id)
    requires Inv(s)
    ensures Inv(JournalStep(s, t))
    ensures SessionsAge(s.rows, JournalStep(s, t).rows)
  {
    NothingAges(s);
    if AtStep(s, t) && s.tasks[t].step.Checked? {
      if s.tasks[t].key in s.rows.actions {
        SessionStepKeeps(s, JournalStep(s, t), t);
      } else {
        JournalInserted(s, t);
      }
    }
  }

  lemma JournalInserted(s: System, t: Id)
    requires Inv(s) && AtStep(s, t) && s.tasks[t].step.Checked? && s.tasks[t].key !in s.rows.actions
    ensures Inv(JournalStep(s, t))
  {
    var s' := JournalStep(s, t);
    NothingAges(s);
    assert TaskCurrent(s.rows, s.tasks[t]);
    TaskAges(s.rows, s'.rows, s.tasks[t]);
    TasksAge(s, s', t);
    JournalEffects(s, t);
    assert Count(s.dispatches, s.tasks[t].key) == 0;
    JournalsAfter(s, s', t);
  }

  /** The dispatched task still owns its row, and has called the driver once. */
  lemma DispatchedOwnsRow(s: System, t: Id, outcome: ActOutcome)
    requires Inv(s) && AtStep(s, t) && s.tasks[t].step.Journaled? && s.tasks[t].request.session in s.handles
    ensures var s', key := DispatchStep(s, t, outcome), s.tasks[t].key;
            && t in s'.tasks && InFlight(s'.tasks[t]) && OwnsRow(s', s'.tasks[t]) && s'.tasks[t].key == key
            && TaskCurrent(s'.rows, s'.tasks[t]) && Count(s'.dispatches, key) <= 1
  {
    assert OwnsRow(s, s.tasks[t]) && TaskCurrent(s.rows, s.tasks[t]);
  }

  lemma Dispatching(s: System, t: Id, outcome: ActOutcome)
    requires Inv(s) && AtStep(s, t) && s.tasks[t].step.Journaled? && s.tasks[t].request.session in s.handles
    ensures Inv(DispatchStep(s, t, outcome))
  {
    var s' := DispatchStep(s, t, outcome);
    NothingAges(s);
    DispatchedOwnsRow(s, t, outcome);
    TasksAge(s, s', t);
    assert Observed(s.rows, s.tasks[t].request);
    SessionEffects(s, s', t);
    JournalsAfter(s, s', t);
  }

  lemma DispatchKeeps(s: System, t: Id, outcome: ActOutcome)
    requires Inv(s)
    ensures Inv(DispatchStep(s, t, outcome))
    ensures SessionsAge(s.rows, DispatchStep(s, t, outcome).rows)
  {
    NothingAges(s);
    if AtStep(s, t) && s.tasks[t].step.Journaled? {
      if s.tasks[t].request.session !in s.handles {
        SessionStepKeeps(s, DispatchStep(s, t, outcome), t);
      } else {
        Dispatching(s, t, outcome);
      }
    }
  }

  /* settling: the one step that bumps a session for an action */

  /** The session row moves to `row`, one revision on, for the action of `t`. */
  function Bump(s: System, t: Id, row: Session, result: ActionResult): System
    requires AtStep(s, t)
  {
    var task := s.tasks[t];
    Put(s, t, task.(step := Settled(result)))
      .(rows := s.rows.(sessions := s.rows.sessions[task.request.session := row]),
        effects := s.effects[task.key := (task.request.session, task.request.revision + 1)])
  }

  /** A settlement ends the task, changes no row, or bumps a session that is still current. */
  lemma SettleCases(s: System, t: Id)
    requires Inv(s) && AtStep(s, t) && s.tasks[t].step.Dispatched?
    ensures var task := s.tasks[t];
            var result := ResultOf(task.session, task.step.outcome);
            || SettleStep(s, t) == Drop(s, t)
            || (SettleStep(s, t) == Put(s, t, task.(step := Settled(result))) && !TookEffect(Some(result)))
            || exists row :: SettleStep(s, t) == Bump(s, t, row, result) && row.revision == task.request.revision + 1
                             && task.request.session in s.rows.sessions
                                && s.rows.sessions[task.request.session] == task.session
  {
    var task := s.tasks[t];
    assert TaskCurrent(s.rows, task);
    var settled := SettledSession(task.session, task.request, task.step.outcome);
    if SettleStep(s, t) != Drop(s, t) && settled.Some? {
      assert SettleStep(s, t) == Bump(s, t, settled.value, ResultOf(task.session, task.step.outcome));
    }
  }

  lemma BumpKeepsOther(s: System, t: Id, row: Session, result: ActionResult, k: Id)
    requires k in s.effects && EffectSound(s, k) && AtStep(s, t) && k != s.tasks[t].key
    requires row.revision == s.tasks[t].request.revision + 1
             && Swapped(s, s.tasks[t].request.session, s.tasks[t].request.revision)
    ensures EffectSound(Bump(s, t, row, result), k)
    ensures s.effects[k] != (s.tasks[t].request.session, s.tasks[t].request.revision + 1)
  {}

  lemma BumpKeepsObserved(s: System, t: Id, row: Session, result: ActionResult, request: Request)
    requires AtStep(s, t) && s.tasks[t].step.Dispatched? && Observed(s.rows, request)
    requires row.revision == s.tasks[t].request.revision + 1
             && Swapped(s, s.tasks[t].request.session, s.tasks[t].request.revision)
    ensures Observed(Bump(s, t, row, result).rows, request)
  {}

  lemma BumpEffects(s: System, t: Id, row: Session, result: ActionResult)
    requires Effects(s) && AtStep(s, t) && s.tasks[t].step.Dispatched? && OwnsRow(s, s.tasks[t])
    requires row.revision == s.tasks[t].request.revision + 1
             && Swapped(s, s.tasks[t].request.session, s.tasks[t].request.revision)
    ensures Effects(Bump(s, t, row, result))
  {
    var s', task := Bump(s, t, row, result), s.tasks[t];
    forall k | k in s'.effects && k != task.key ensures EffectSound(s', k) && s'.effects[k] != s'.effects[task.key] {
      BumpKeepsOther(s, t, row, result, k);
    }
    forall k | k in s'.rows.actions ensures Observed(s'.rows, s'.rows.actions[k].request) {
      BumpKeepsObserved(s, t, row, result, s.rows.actions[k].request);
    }
  }

  lemma BumpAges(s: System, t: Id, row: Session, result: ActionResult)
    requires AtStep(s, t)
    requires row.revision == s.tasks[t].request.revision + 1
             && Swapped(s, s.tasks[t].request.session, s.tasks[t].request.revision)
    requires LiveState(s.rows.sessions[s.tasks[t].request.session].state)
    ensures SessionsAge(s.rows, Bump(s, t, row, result).rows)
  {}

  lemma Bumping(s: System, t: Id, row: Session, result: ActionResult)
    requires Inv(s) && AtStep(s, t) && s.tasks[t].step.Dispatched?
    requires row.revision == s.tasks[t].request.revision + 1
             && Swapped(s, s.tasks[t].request.session, s.tasks[t].request.revision)
    requires LiveState(s.rows.sessions[s.tasks[t].request.session].state)
    ensures Inv(Bump(s, t, row, result))
    ensures SessionsAge(s.rows, Bump(s, t, row, result).rows)
  {
    var s', task := Bump(s, t, row, result), s.tasks[t];
    assert OwnsRow(s, task) && TaskCurrent(s.rows, task);
    BumpAges(s, t, row, result);
    BumpEffects(s, t, row, result);
    TaskAges(s.rows, s'.rows, task);
    TasksAge(s, s', t);
    assert Count(s.dispatches, task.key) <= 1;
    JournalsAfter(s, s', t);
  }

  lemma SettlingQuietly(s: System, t: Id, result: ActionResult)
    requires Inv(s) && AtStep(s, t) && s.tasks[t].step.Dispatched? && !TookEffect(Some(result))
    ensures Inv(Put(s, t, s.tasks[t].(step := Settled(result))))
  {
    var s', task := Put(s, t, s.tasks[t].(step := Settled(result))), s.tasks[t];
    NothingAges(s);
    assert OwnsRow(s, task) && TaskCurrent(s.rows, task) && Observed(s.rows, task.request);
    TasksAge(s, s', t);
    SessionEffects(s, s', t);
    assert Count(s.dispatches, task.key) <= 1;
    JournalsAfter(s, s', t);
  }

  lemma SettleKeeps(s: System, t: Id)
    requires Inv(s)
    ensures Inv(SettleStep(s, t))
    ensures SessionsAge(s.rows, SettleStep(s, t).rows)
  {
    NothingAges(s);
    if AtStep(s, t) && s.tasks[t].step.Dispatched? {
      var task := s.tasks[t];
      var result := ResultOf(task.session, task.step.outcome);
      SettleCases(s, t);
      assert TaskCurrent(s.rows, task);
      if SettleStep(s, t) == Drop(s, t) {
        SessionStepKeeps(s, Drop(s, t), t);
      } else if SettleStep(s, t) == Put(s, t, task.(step := Settled(result))) && !TookEffect(Some(result)) {
        SettlingQuietly(s, t, result);
      } else {
        var row :| SettleStep(s, t) == Bump(s, t, row, result) && row.revision == task.request.revision + 1;
        Bumping(s, t, row, result);
      }
    }
  }

  lemma CompleteEffects(s: System, t: Id)
    requires Inv(s) && AtStep(s, t) && s.tasks[t].step.Settled? && s.tasks[t].key in s.rows.actions
    ensures Effects(CompleteStep(s, t))
  {
    var s' := CompleteStep(s, t);
    assert OwnsRow(s, s.tasks[t]);
    forall k | k in s'.effects ensures EffectSound(s', k) { assert EffectSound(s, k); }
    forall k | k in s'.rows.actions ensures Observed(s'.rows, s'.rows.actions[k].request) {
      assert Observed(s.rows, s.rows.actions[k].request);
    }
  }

  lemma CompleteKeeps(s: System, t: Id)
    requires Inv(s)
    ensures Inv(CompleteStep(s, t))
    ensures SessionsAge(s.rows, CompleteStep(s, t).rows)
  {
    NothingAges(s);
    var s' := CompleteStep(s, t);
    if AtStep(s, t) && s.tasks[t].step.Settled? && s.tasks[t].key in s.rows.actions {
      CompleteEffects(s, t);
      TasksAge(s, s', t);
      assert Count(s.dispatches, s.tasks[t].key) <= 1;
      JournalsAfter(s, s', t);
    }
  }
}
