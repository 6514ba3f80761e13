/** The supervisor's guarantees over whole runs. */
module BrowserResults {
  import opened Outcomes
  import opened BrowserSessions
  import opened BrowserProtocol
  import opened BrowserSafety
  import opened BrowserFrames

  lemma StepKeeps(s: System, e: Event)
    requires Inv(s)
    ensures Inv(Step(s, e)) && SessionsAge(s.rows, Step(s, e).rows)
  {
    match e
    case BeginOpen(t, id, persistent, owner) => BeginOpenKeeps(s, t, id, persistent, owner);
    case FinishOpen(t, result) => FinishOpenKeeps(s, t, result);
    case BeginObserve(t, id, page, revision, owner) => BeginObserveKeeps(s, t, id, page, revision, owner);
    case FinishObserve(t, o, expires) => FinishObserveKeeps(s, t, o, expires);
    case BeginClose(t, id, owner) => BeginCloseKeeps(s, t, id, owner);
    case FinishClose(t, closed) => FinishCloseKeeps(s, t, closed);
    case BeginRestart(t, effects) => BeginRestartKeeps(s, t, effects);
    case RestartOne(t, id) => RestartOneKeeps(s, t, id);
    case Crash => CrashKeeps(s); NothingAges(s);
    case _ => ActStepKeeps(s, e);
  }

  lemma ActStepKeeps(s: System, e: Event)
    requires Inv(s) && (e.BeginAct? || e.JournalAct? || e.Dispatch? || e.SettleAct? || e.CompleteAct?)
    ensures Inv(Step(s, e)) && SessionsAge(s.rows, Step(s, e).rows)
  {
    match e
    case BeginAct(t, key, request, owner, authorized, now) => BeginActKeeps(s, t, key, request, owner, authorized, now);
    case JournalAct(t) => JournalKeeps(s, t);
    case Dispatch(t, outcome) => DispatchKeeps(s, t, outcome);
    case SettleAct(t) => SettleKeeps(s, t);
    case CompleteAct(t) => CompleteKeeps(s, t);
  }

  lemma {:induction false} RunKeeps(s: System, events: seq<Event>)
    requires Inv(s)
    ensures Inv(Run(s, events))
    decreases |events|
  {
    if events != [] {
      StepKeeps(s, events[0]);
      RunKeeps(Step(s, events[0]), events[1..]);
    }
  }

  /** Whatever is retried, and wherever the process crashes, the driver acts at most once for an
      idempotency key, and only for a key that the journal holds. */
  lemma DispatchedAtMostOnce(events: seq<Event>, key: Id)
    ensures var s := Run(START, events);
            Count(s.dispatches, key) <= 1 && (Count(s.dispatches, key) == 1 ==> key in s.rows.actions)
  {
    RunKeeps(START, events);
  }

  /** One event moves each session's revision by at most one, and only out of a live state. */
  lemma RevisionsCountUpdates(events: seq<Event>, e: Event, id: Id)
    ensures var s := Run(START, events);
            id in s.rows.sessions ==>
              && id in Step(s, e).rows.sessions
              && (Step(s, e).rows.sessions[id] != s.rows.sessions[id] ==>
                    && Step(s, e).rows.sessions[id].revision == s.rows.sessions[id].revision + 1
                    && LiveState(s.rows.sessions[id].state))
  {
    RunKeeps(START, events);
    StepKeeps(Run(START, events), e);
    if id in Run(START, events).rows.sessions {
      assert SessionAges(Run(START, events).rows.sessions[id], Step(Run(START, events), e).rows.sessions[id]);
    }
  }

  /** A closed, lost, failed or uncertain session is never touched again. */
  lemma {:induction false} TerminalSessionsStay(s: System, events: seq<Event>, id: Id)
    requires Inv(s) && id in s.rows.sessions && !LiveState(s.rows.sessions[id].state)
    ensures id in Run(s, events).rows.sessions && Run(s, events).rows.sessions[id] == s.rows.sessions[id]
    decreases |events|
  {
    if events != [] {
      StepKeeps(s, events[0]);
      assert SessionAges(s.rows.sessions[id], Step(s, events[0]).rows.sessions[id]);
      TerminalSessionsStay(Step(s, events[0]), events[1..], id);
    }
  }

  /** No observation supports two actions whose recorded result is completed or uncertain. */
  lemma OneEffectPerObservation(events: seq<Event>, k: Id, l: Id)
    ensures var actions := Run(START, events).rows.actions;
            (k in actions && TookEffect(actions[k].result) && l in actions && TookEffect(actions[l].result)
             && actions[k].request.observation == actions[l].request.observation) ==> k == l
  {
    RunKeeps(START, events);
    OneEffect(Run(START, events), k, l);
  }

  lemma OneEffect(s: System, k: Id, l: Id)
    requires Inv(s)
    ensures var actions := s.rows.actions;
            (k in actions && TookEffect(actions[k].result) && l in actions && TookEffect(actions[l].result)
             && actions[k].request.observation == actions[l].request.observation) ==> k == l
  {
    var actions := s.rows.actions;
    if k in actions && TookEffect(actions[k].result) && l in actions && TookEffect(actions[l].result) {
      assert EffectSound(s, k) && EffectSound(s, l);
      assert Observed(s.rows, actions[k].request) && Observed(s.rows, actions[l].request);
    }
  }

  /* ---------- stored results ---------- */

  ghost predicate ActionsAge(r: Rows, r': Rows) {
    forall k :: k in r.actions ==>
      && k in r'.actions && r'.actions[k].request == r.actions[k].request
      && (r.actions[k].result.Some? ==> r'.actions[k] == r.actions[k])
  }

  lemma JournalAgesActions(s: System, t: Id)
    ensures ActionsAge(s.rows, JournalStep(s, t).rows)
  {}

  lemma CompleteAgesActions(s: System, t: Id)
    requires Inv(s)
    ensures ActionsAge(s.rows, CompleteStep(s, t).rows)
  {
    if AtStep(s, t) && s.tasks[t].step.Settled? { assert OwnsRow(s, s.tasks[t]); }
  }

  lemma OthersKeepActions(s: System, e: Event)
    requires !e.JournalAct? && !e.CompleteAct?
    ensures Step(s, e).rows.actions == s.rows.actions
  {
    match e
    case BeginAct(t, key, request, owner, authorized, now) => BeginActFrame(s, t, key, request, owner, authorized, now);
    case Dispatch(t, outcome) => DispatchFrame(s, t, outcome);
    case SettleAct(t) => SettleFrame(s, t);
    case Crash =>
    case _ => BystandersFrame(s, e);
  }

  lemma StepAgesActions(s: System, e: Event)
    requires Inv(s)
    ensures ActionsAge(s.rows, Step(s, e).rows)
  {
    if e.JournalAct? {
      JournalAgesActions(s, e.t);
    } else if e.CompleteAct? {
      CompleteAgesActions(s, e.t);
    } else {
      OthersKeepActions(s, e);
    }
  }

  lemma {:induction false} RunAgesActions(s: System, events: seq<Event>, k: Id)
    requires Inv(s) && k in s.rows.actions && s.rows.actions[k].result.Some?
    ensures k in Run(s, events).rows.actions && Run(s, events).rows.actions[k] == s.rows.actions[k]
    decreases |events|
  {
    if events != [] {
      StepAgesActions(s, events[0]);
      StepKeeps(s, events[0]);
      RunAgesActions(Step(s, events[0]), events[1..], k);
    }
  }

  /** Once an action is completed, repeating the same request returns the stored result for ever,
      and the key with any other request is refused as a duplicate. */
  lemma CompletedActionsReplay(before: seq<Event>, after: seq<Event>, k: Id, request: Request)
    requires k in Run(START, before).rows.actions && Run(START, before).rows.actions[k].result.Some?
    ensures var row := Run(START, before).rows.actions[k];
            ActionByKey(Run(Run(START, before), after).rows, k, request)
              == if request == row.request then Ok(row.result) else Refused(DuplicateResult)
  {
    RunKeeps(START, before);
    RunAgesActions(Run(START, before), after, k);
  }

  /* ---------- restart ---------- */

  /** An action past its journal row is unresolved until it completes, so a restart that
      interrupts it cannot call its session merely lost. */
  lemma InFlightActionsAreUnresolved(events: seq<Event>, t: Id)
    ensures var s := Run(START, events);
            t in s.tasks && InFlight(s.tasks[t]) ==> Unresolved(s.rows, s.tasks[t].request.session)
  {
    RunKeeps(START, events);
    var s := Run(START, events);
    if t in s.tasks && InFlight(s.tasks[t]) { assert OwnsRow(s, s.tasks[t]); }
  }
}
