/** What brings a session into each state, over whole runs. */
module BrowserCauses {
  import opened BrowserSessions
  import opened BrowserProtocol
  import opened BrowserSafety
  import opened BrowserResults
  import opened BrowserEffects

  /** The event that may bring session `id` into `state`: the driver's report on its opening or closing, an action on
      which certainty was lost, its owner's call, or a restart. */
  predicate Causes(s: System, e: Event, id: Id, state: SessionState) {
    match state
    case Opening => e.BeginOpen? && e.id == id
    case Active => OpeningReport(s, e, id) && e.result.DriverOpened?
    case SessionFailed => OpeningReport(s, e, id) && e.result.OpenFailed? && !s.tasks[e.t].session.persistent
    case Closing => e.BeginClose? && e.id == id && id in s.rows.sessions && e.owner == s.rows.sessions[id].owner
                    && id in s.handles
    case Closed => ClosingReport(s, e, id) && e.closed
    case Lost => e.RestartOne? && e.id == id
    case Uncertain =>
      || (OpeningReport(s, e, id)
          && (e.result.OpenUncertain? || (e.result.OpenFailed? && s.tasks[e.t].session.persistent)))
      || (ClosingReport(s, e, id) && !e.closed)
      || (e.SettleAct? && e.t in s.tasks && s.tasks[e.t].ActTask? && s.tasks[e.t].request.session == id
          && s.tasks[e.t].step == Dispatched(CertaintyLost))
      || (e.RestartOne? && e.id == id)
  }

  predicate OpeningReport(s: System, e: Event, id: Id) {
    e.FinishOpen? && e.t in s.tasks && s.tasks[e.t].OpenTask? && s.tasks[e.t].id == id
  }

  predicate ClosingReport(s: System, e: Event, id: Id) {
    e.FinishClose? && e.t in s.tasks && s.tasks[e.t].CloseTask? && s.tasks[e.t].id == id
  }

  predicate InState(s: System, id: Id, state: SessionState) {
    id in s.rows.sessions && s.rows.sessions[id].state == state
  }

  /** What the task works from is the session's row still, as far as the revision tells. */
  ghost predicate UpToDate(s: System, t: Id) { t in s.tasks ==> TaskCurrent(s.rows, s.tasks[t]) }

  lemma TasksAreUpToDate(s: System, t: Id)
    requires Inv(s)
    ensures UpToDate(s, t)
  {}

  lemma OpeningCauses(s: System, t: Id, one: Id, persistent: bool, owner: string, id: Id, state: SessionState)
    requires !InState(s, id, state) && InState(BeginOpenStep(s, t, one, persistent, owner), id, state)
    ensures Causes(s, BeginOpen(t, one, persistent, owner), id, state)
  {}

  lemma OpenedCauses(s: System, t: Id, outcome: OpenOutcome, id: Id, state: SessionState)
    requires UpToDate(s, t) && !InState(s, id, state) && InState(FinishOpenStep(s, t, outcome), id, state)
    ensures Causes(s, FinishOpen(t, outcome), id, state)
  {}

  lemma ClosingCauses(s: System, t: Id, one: Id, owner: string, id: Id, state: SessionState)
    requires !InState(s, id, state) && InState(BeginCloseStep(s, t, one, owner), id, state)
    ensures Causes(s, BeginClose(t, one, owner), id, state)
  {}

  lemma ClosedCauses(s: System, t: Id, closed: bool, id: Id, state: SessionState)
    requires UpToDate(s, t) && !InState(s, id, state) && InState(FinishCloseStep(s, t, closed), id, state)
    ensures Causes(s, FinishClose(t, closed), id, state)
  {}

  lemma SettlingCauses(s: System, t: Id, id: Id, state: SessionState)
    requires UpToDate(s, t) && !InState(s, id, state) && InState(SettleStep(s, t), id, state)
    ensures Causes(s, SettleAct(t), id, state)
  {}

  lemma RestartCauses(s: System, t: Id, one: Id, id: Id, state: SessionState)
    requires UpToDate(s, t) && !InState(s, id, state) && InState(RestartOneStep(s, t, one), id, state)
    ensures Causes(s, RestartOne(t, one), id, state)
  {}

  lemma OtherStepsKeepSessions(s: System, e: Event)
    requires e.BeginObserve? || e.FinishObserve? || e.BeginAct? || e.JournalAct? || e.Dispatch? || e.CompleteAct?
             || e.BeginRestart? || e.Crash?
    ensures Step(s, e).rows.sessions == s.rows.sessions
  {
    match e
    case BeginObserve(_, _, _, _, _) =>
    case FinishObserve(_, _, _) =>
    case BeginAct(_, _, _, _, _, _) =>
    case JournalAct(_) =>
    case Dispatch(_, _) =>
    case CompleteAct(_) =>
    case BeginRestart(_, _) =>
    case Crash =>
  }

  lemma StateChangesAreCaused(s: System, e: Event, id: Id, state: SessionState)
    requires Inv(s) && !InState(s, id, state) && InState(Step(s, e), id, state)
    ensures Causes(s, e, id, state)
  {
    match e
    case SettleAct(t) => TasksAreUpToDate(s, t); SettlingCauses(s, t, id, state);
    case RestartOne(t, one) => TasksAreUpToDate(s, t); RestartCauses(s, t, one, id, state);
    case BeginOpen(t, one, persistent, owner) => OpeningCauses(s, t, one, persistent, owner, id, state);
    case FinishOpen(t, outcome) => TasksAreUpToDate(s, t); OpenedCauses(s, t, outcome, id, state);
    case BeginClose(t, one, owner) => ClosingCauses(s, t, one, owner, id, state);
    case FinishClose(t, closed) => TasksAreUpToDate(s, t); ClosedCauses(s, t, closed, id, state);
    case _ => OtherStepsKeepSessions(s, e);
  }

  lemma RunLast(earlier: seq<Event>, e: Event)
    ensures Run(START, earlier + [e]) == Step(Run(START, earlier), e)
  {
    RunAppend(START, earlier, [e]);
    assert Run(Step(Run(START, earlier), e), [e][1..]) == Step(Run(START, earlier), e);
  }

  /** Some event of the run brought the session into the state. */
  ghost predicate Brought(events: seq<Event>, id: Id, state: SessionState) {
    exists n :: 0 <= n < |events| && Causes(Run(START, events[..n]), events[n], id, state)
  }

  lemma BroughtBefore(earlier: seq<Event>, e: Event, id: Id, state: SessionState)
    requires Brought(earlier, id, state)
    ensures Brought(earlier + [e], id, state)
  {
    var n :| 0 <= n < |earlier| && Causes(Run(START, earlier[..n]), earlier[n], id, state);
    assert (earlier + [e])[..n] == earlier[..n] && (earlier + [e])[n] == earlier[n];
  }

  lemma BroughtLast(earlier: seq<Event>, e: Event, id: Id, state: SessionState)
    requires Causes(Run(START, earlier), e, id, state)
    ensures Brought(earlier + [e], id, state)
  {
    assert (earlier + [e])[..|earlier|] == earlier && (earlier + [e])[|earlier|] == e;
  }

  /** In every run a session is in a state only because an event brought it there: closed only by a driver that closed
      it, lost only by a restart, failed only by a driver that failed to open a session without a profile. */
  lemma {:induction false} StatesHaveCauses(events: seq<Event>, id: Id, state: SessionState)
    requires InState(Run(START, events), id, state)
    ensures Brought(events, id, state)
    decreases |events|
  {
    if events != [] {
      var earlier, e := events[..|events| - 1], events[|events| - 1];
      assert events == earlier + [e];
      RunLast(earlier, e);
      if InState(Run(START, earlier), id, state) {
        StatesHaveCauses(earlier, id, state);
        BroughtBefore(earlier, e, id, state);
      } else {
        RunKeeps(START, earlier);
        StateChangesAreCaused(Run(START, earlier), e, id, state);
        BroughtLast(earlier, e, id, state);
      }
    }
  }

  /* ---------- owners ---------- */

  predicate SameOwner(r: Session, r': Session) { r'.owner == r.owner && r'.persistent == r.persistent }

  lemma StepKeepsOwner(s: System, e: Event, id: Id)
    requires Inv(s) && id in s.rows.sessions
    ensures id in Step(s, e).rows.sessions && SameOwner(s.rows.sessions[id], Step(s, e).rows.sessions[id])
  {
    match e
    case SettleAct(t) => TasksAreUpToDate(s, t); SettlingKeepsOwner(s, t, id);
    case RestartOne(t, one) => TasksAreUpToDate(s, t); RestartKeepsOwner(s, t, one, id);
    case BeginOpen(_, _, _, _) =>
    case FinishOpen(t, outcome) => TasksAreUpToDate(s, t); OpenedKeepsOwner(s, t, outcome, id);
    case BeginClose(_, _, _) =>
    case FinishClose(t, closed) => TasksAreUpToDate(s, t); ClosedKeepsOwner(s, t, closed, id);
    case _ => OtherStepsKeepSessions(s, e);
  }

  lemma SwapKeepsOwner(s: System, one: Id, row: Session, expected: nat, id: Id)
    requires id in s.rows.sessions
    requires one in s.rows.sessions && s.rows.sessions[one].revision == expected ==>
               SameOwner(s.rows.sessions[one], row)
    ensures var s' := Swap(s, one, row, expected);
            id in s'.rows.sessions && SameOwner(s.rows.sessions[id], s'.rows.sessions[id])
  {}

  lemma OpenedKeepsOwner(s: System, t: Id, outcome: OpenOutcome, id: Id)
    requires UpToDate(s, t) && id in s.rows.sessions
    ensures var s' := FinishOpenStep(s, t, outcome);
            id in s'.rows.sessions && SameOwner(s.rows.sessions[id], s'.rows.sessions[id])
  {
    if t in s.tasks && s.tasks[t].OpenTask? {
      SwapKeepsOwner(s, s.tasks[t].id, OpenedSession(s.tasks[t].session, outcome), 0, id);
    }
  }

  lemma ClosedKeepsOwner(s: System, t: Id, closed: bool, id: Id)
    requires UpToDate(s, t) && id in s.rows.sessions
    ensures var s' := FinishCloseStep(s, t, closed);
            id in s'.rows.sessions && SameOwner(s.rows.sessions[id], s'.rows.sessions[id])
  {
    if t in s.tasks && s.tasks[t].CloseTask? {
      var row := s.tasks[t].session;
      SwapKeepsOwner(s, s.tasks[t].id, EndedSession(row, closed), row.revision, id);
    }
  }

  lemma SettlingKeepsOwner(s: System, t: Id, id: Id)
    requires UpToDate(s, t) && id in s.rows.sessions
    ensures id in SettleStep(s, t).rows.sessions && SameOwner(s.rows.sessions[id], SettleStep(s, t).rows.sessions[id])
  {}

  lemma RestartKeepsOwner(s: System, t: Id, one: Id, id: Id)
    requires UpToDate(s, t) && id in s.rows.sessions
    ensures var s' := RestartOneStep(s, t, one);
            id in s'.rows.sessions && SameOwner(s.rows.sessions[id], s'.rows.sessions[id])
  {
    if t in s.tasks && s.tasks[t].RestartTask? && one in s.tasks[t].seen {
      var row := s.tasks[t].seen[one];
      SwapKeepsOwner(s, one, Restarted(row, s.tasks[t].effects, one), row.revision, id);
    }
  }

  /** A session keeps its owner, and its kind of profile, in every continuation. */
  lemma {:induction false} OwnersStay(s: System, events: seq<Event>, id: Id)
    requires Inv(s) && id in s.rows.sessions
    ensures id in Run(s, events).rows.sessions && SameOwner(s.rows.sessions[id], Run(s, events).rows.sessions[id])
    decreases |events|
  {
    if events != [] {
      StepKeeps(s, events[0]);
      StepKeepsOwner(s, events[0], id);
      OwnersStay(Step(s, events[0]), events[1..], id);
    }
  }

  /** A call in somebody else's name begins nothing. */
  lemma StrangersBeginNothing(s: System, e: Event, id: Id)
    requires id in s.rows.sessions
    requires || (e.BeginObserve? && e.id == id && e.owner != s.rows.sessions[id].owner)
             || (e.BeginAct? && e.request.session == id && e.owner != s.rows.sessions[id].owner)
             || (e.BeginClose? && e.id == id && e.owner != s.rows.sessions[id].owner)
    ensures Step(s, e) == s
  {}
}
