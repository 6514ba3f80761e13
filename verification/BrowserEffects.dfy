/** How many dispatched actions one observation supports: once the driver has acted, or may have,
    another can follow exactly when the supervisor could not record the first. */
module BrowserEffects {
  import opened Outcomes
  import opened BrowserSessions
  import opened BrowserProtocol
  import opened BrowserFrames
  import opened BrowserSafety
  import opened BrowserResults

  /** The driver acted, or may have. */
  predicate Took(outcome: ActOutcome) { outcome.Acted? || outcome.CertaintyLost? }

  /** The driver acted, but an artifact of it could not be stored. */
  predicate Unrecorded(outcome: ActOutcome) { outcome.Acted? && !outcome.recorded }

  predicate Spends(outcome: ActOutcome) { Took(outcome) && !Unrecorded(outcome) }

  predicate Acting(s: System, t: Id, k: Id) { t in s.tasks && s.tasks[t].ActTask? && s.tasks[t].key == k }

  predicate Uses(s: System, t: Id, observation: Id) {
    t in s.tasks && s.tasks[t].ActTask? && s.tasks[t].request.observation == observation
  }

  /** Only the action of `k` uses the observation. */
  ghost predicate SoleUser(s: System, observation: Id, k: Id) {
    forall t :: Uses(s, t, observation) ==> s.tasks[t].key == k
  }

  /** The effect of `k`, on this request, is still to be settled. */
  ghost predicate Settling(s: System, k: Id, request: Request) {
    exists t :: Acting(s, t, k) && s.tasks[t].request == request && s.tasks[t].step.Dispatched?
      && Spends(s.tasks[t].step.outcome)
  }

  predicate Behind(s: System, request: Request) {
    request.session in s.rows.sessions && s.rows.sessions[request.session].revision > request.revision
  }

  /** The observation that `request` names supports no dispatch after that of `k`. */
  ghost predicate Spent(s: System, k: Id, request: Request) {
    && request.session in s.rows.sessions
    && Observed(s.rows, request)
    && (|| Severed(s, request.session)
        || (SoleUser(s, request.observation, k) && (Behind(s, request) || Settling(s, k, request))))
  }

  /* ---------- a spent observation stays spent ---------- */

  lemma BystanderSpent(s: System, s': System, k: Id, request: Request)
    requires Spent(s, k, request) && Bystander(s, s') && SessionsAge(s.rows, s'.rows)
    ensures Spent(s', k, request)
  {
    if !Severed(s, request.session) {
      forall t | Uses(s', t, request.observation) ensures s'.tasks[t].key == k {
        assert Uses(s, t, request.observation);
      }
      if Settling(s, k, request) {
        var t :| Acting(s, t, k) && s.tasks[t].request == request && s.tasks[t].step.Dispatched?
          && Spends(s.tasks[t].step.outcome);
        assert Acting(s', t, k);
      }
    }
  }

  /** No task can begin to use it: it is stale, or its session is locked. */
  lemma BeginActSpent(
    s: System, t: Id, key: Id, request': Request, owner: string, authorized: bool, now: int, k: Id, request: Request)
    requires Inv(s) && Spent(s, k, request)
    ensures Spent(BeginActStep(s, t, key, request', owner, authorized, now), k, request)
  {
    var s' := BeginActStep(s, t, key, request', owner, authorized, now);
    BeginActFrame(s, t, key, request', owner, authorized, now);
    if !Severed(s, request.session) && s' != s {
      if Settling(s, k, request) {
        var u :| Acting(s, u, k) && s.tasks[u].request == request && s.tasks[u].step.Dispatched?
          && Spends(s.tasks[u].step.outcome);
        assert Locks(s.tasks[u], request.session);
        assert Acting(s', u, k);
      }
      assert request'.observation != request.observation;
      forall u | Uses(s', u, request.observation) ensures s'.tasks[u].key == k {
        assert Uses(s, u, request.observation);
      }
    }
  }

  /** A step of task `t` that keeps its key and request, or ends it. */
  predicate Moves(s: System, s': System, t: Id) {
    && AtStep(s, t)
    && (s'.tasks == s.tasks - {t}
        || (t in s'.tasks && s'.tasks == s.tasks[t := s'.tasks[t]] && s'.tasks[t].ActTask?
            && s'.tasks[t].key == s.tasks[t].key && s'.tasks[t].request == s.tasks[t].request))
  }

  lemma MoveKeepsSole(s: System, s': System, t: Id, observation: Id, k: Id)
    requires Moves(s, s', t) && SoleUser(s, observation, k)
    ensures SoleUser(s', observation, k)
  {
    forall u | Uses(s', u, observation) ensures s'.tasks[u].key == k { assert Uses(s, u, observation); }
  }

  /** Moving a task whose effect is not the one to be settled. */
  lemma MoveSpent(s: System, s': System, t: Id, k: Id, request: Request)
    requires Spent(s, k, request) && Moves(s, s', t) && Orderly(s, s') && SessionsAge(s.rows, s'.rows)
    requires !s.tasks[t].step.Dispatched? || Behind(s', request) || !Acting(s, t, k) || s.tasks[t].request != request
             || !Spends(s.tasks[t].step.outcome)
    ensures Spent(s', k, request)
  {
    if !Severed(s, request.session) {
      MoveKeepsSole(s, s', t, request.observation, k);
      if Settling(s, k, request) && !Behind(s', request) {
        var u :| Acting(s, u, k) && s.tasks[u].request == request && s.tasks[u].step.Dispatched?
          && Spends(s.tasks[u].step.outcome);
        assert Acting(s', u, k);
      }
    }
  }

  /** Settling a recorded effect moves the session past the revision that was observed. */
  lemma SettlingPasses(s: System, t: Id)
    requires Inv(s) && AtStep(s, t) && s.tasks[t].step.Dispatched? && Spends(s.tasks[t].step.outcome)
    ensures Behind(SettleStep(s, t), s.tasks[t].request)
  {
    assert TaskCurrent(s.rows, s.tasks[t]);
  }

  lemma SettleMoves(s: System, t: Id)
    requires AtStep(s, t) && s.tasks[t].step.Dispatched?
    ensures Moves(s, SettleStep(s, t), t)
  {}

  lemma SettleSpent(s: System, t: Id, k: Id, request: Request)
    requires Inv(s) && Spent(s, k, request)
    ensures Spent(SettleStep(s, t), k, request)
  {
    if AtStep(s, t) && s.tasks[t].step.Dispatched? {
      SettleMoves(s, t);
      SettleFrame(s, t);
      SettleKeeps(s, t);
      if Spends(s.tasks[t].step.outcome) { SettlingPasses(s, t); }
      MoveSpent(s, SettleStep(s, t), t, k, request);
    }
  }

  lemma JournalMoves(s: System, t: Id)
    requires AtStep(s, t) && s.tasks[t].step.Checked?
    ensures Moves(s, JournalStep(s, t), t)
  {}

  lemma JournalSpent(s: System, t: Id, k: Id, request: Request)
    requires Inv(s) && Spent(s, k, request)
    ensures Spent(JournalStep(s, t), k, request)
  {
    if AtStep(s, t) && s.tasks[t].step.Checked? {
      JournalMoves(s, t);
      JournalFrame(s, t);
      JournalKeeps(s, t);
      MoveSpent(s, JournalStep(s, t), t, k, request);
    }
  }

  lemma DispatchSpent(s: System, t: Id, outcome: ActOutcome, k: Id, request: Request)
    requires Inv(s) && Spent(s, k, request)
    ensures Spent(DispatchStep(s, t, outcome), k, request)
  {
    if AtStep(s, t) && s.tasks[t].step.Journaled? {
      DispatchFrame(s, t, outcome);
      DispatchKeeps(s, t, outcome);
      MoveSpent(s, DispatchStep(s, t, outcome), t, k, request);
    }
  }

  lemma CompleteSpent(s: System, t: Id, k: Id, request: Request)
    requires Inv(s) && Spent(s, k, request)
    ensures Spent(CompleteStep(s, t), k, request)
  {
    if CompleteStep(s, t) != s {
      CompleteFrame(s, t);
      CompleteKeeps(s, t);
      MoveSpent(s, CompleteStep(s, t), t, k, request);
    }
  }

  lemma StepSpent(s: System, e: Event, k: Id, request: Request)
    requires Inv(s) && Spent(s, k, request)
    ensures Spent(Step(s, e), k, request)
  {
    match e
    case BeginAct(t, key, r, owner, authorized, now) => BeginActSpent(s, t, key, r, owner, authorized, now, k, request);
    case JournalAct(t) => JournalSpent(s, t, k, request);
    case Dispatch(t, outcome) => DispatchSpent(s, t, outcome, k, request);
    case SettleAct(t) => SettleSpent(s, t, k, request);
    case CompleteAct(t) => CompleteSpent(s, t, k, request);
    case Crash =>
    case _ =>
      BystandersFrame(s, e);
      StepKeeps(s, e);
      BystanderSpent(s, Step(s, e), k, request);
  }

  /* ---------- over whole runs ---------- */

  predicate Dispatches(s: System, t: Id) {
    AtStep(s, t) && s.tasks[t].step.Journaled? && s.tasks[t].request.session in s.handles
  }

  /** Dispatching takes a free observation and, unless it cannot be recorded, spends it. */
  lemma DispatchSpends(s: System, t: Id, outcome: ActOutcome)
    requires Inv(s) && LocksExclusive(s) && Dispatches(s, t) && Spends(outcome)
    ensures Spent(DispatchStep(s, t, outcome), s.tasks[t].key, s.tasks[t].request)
  {
    var s', task := DispatchStep(s, t, outcome), s.tasks[t];
    assert TaskCurrent(s.rows, task) && Observed(s.rows, task.request);
    forall u | Uses(s', u, task.request.observation) ensures s'.tasks[u].key == task.key {
      if u != t {
        assert Observed(s.rows, s.tasks[u].request);
        assert Locks(s.tasks[u], task.request.session) && Locks(task, task.request.session);
      }
    }
    assert Acting(s', t, task.key);
  }

  lemma SpentIsNotDispatched(s: System, t: Id, k: Id, request: Request)
    requires Inv(s) && Spent(s, k, request) && Dispatches(s, t) && s.tasks[t].request.observation == request.observation
    ensures s.tasks[t].key == k
  {
    assert Uses(s, t, request.observation) && Observed(s.rows, s.tasks[t].request);
  }

  /** A dispatched key has its journal row, and has spent its observation unless unrecorded. */
  ghost predicate ActSound(s: System, k: Id)
    requires k in s.acts
  {
    && k in s.rows.actions && Count(s.dispatches, k) > 0
    && (Spends(s.acts[k]) ==> Spent(s, k, s.rows.actions[k].request))
  }

  predicate SharesObservation(s: System, k: Id, l: Id) {
    k in s.rows.actions && l in s.rows.actions
    && s.rows.actions[k].request.observation == s.rows.actions[l].request.observation
  }

  ghost predicate OutcomesKnown(s: System) {
    forall t :: AtStep(s, t) && s.tasks[t].step.Dispatched? ==>
      s.tasks[t].key in s.acts && s.acts[s.tasks[t].key] == s.tasks[t].step.outcome
  }

  ghost predicate Supported(s: System) {
    && LocksExclusive(s)
    && OutcomesKnown(s)
    && (forall k :: k in s.acts ==> ActSound(s, k))
    && PairsSound(s)
  }

  ghost predicate PairsSound(s: System) {
    forall k, l :: k in s.acts && l in s.acts && k != l && SharesObservation(s, k, l) ==>
      !(Spends(s.acts[k]) && Spends(s.acts[l]))
  }

  lemma QuietSupported(s: System, e: Event)
    requires Inv(s) && Supported(s) && !e.Dispatch?
    ensures Supported(Step(s, e))
  {
    var s' := Step(s, e);
    StepOrderly(s, e);
    StepAgesActions(s, e);
    forall k | k in s'.acts ensures ActSound(s', k) { QuietSound(s, e, k); }
    QuietPairs(s, s');
  }

  lemma QuietPairs(s: System, s': System)
    requires PairsSound(s) && s'.acts == s.acts && ActionsAge(s.rows, s'.rows)
    requires forall k :: k in s.acts ==> k in s.rows.actions
    ensures PairsSound(s')
  {}

  lemma QuietSound(s: System, e: Event, k: Id)
    requires Inv(s) && k in s.acts && ActSound(s, k) && !e.Dispatch?
    ensures Step(s, e).acts == s.acts && ActSound(Step(s, e), k)
  {
    StepOrderly(s, e);
    StepAgesActions(s, e);
    if Spends(s.acts[k]) { StepSpent(s, e, k, s.rows.actions[k].request); }
  }

  lemma StepOrderly(s: System, e: Event)
    ensures LocksExclusive(s) ==> LocksExclusive(Step(s, e))
    ensures !e.Dispatch? ==>
              Step(s, e).acts == s.acts && Step(s, e).dispatches == s.dispatches && NoneDispatched(s, Step(s, e))
  {
    match e
    case BeginAct(t, key, r, owner, authorized, now) => BeginActFrame(s, t, key, r, owner, authorized, now);
    case JournalAct(t) => JournalFrame(s, t);
    case Dispatch(t, outcome) => DispatchFrame(s, t, outcome);
    case SettleAct(t) => SettleFrame(s, t);
    case CompleteAct(t) => CompleteFrame(s, t);
    case Crash =>
    case _ => BystandersFrame(s, e);
  }

  lemma DispatchedAreSound(s: System, t: Id, outcome: ActOutcome, k: Id)
    requires Inv(s) && Supported(s) && k in DispatchStep(s, t, outcome).acts
    ensures ActSound(DispatchStep(s, t, outcome), k)
  {
    DispatchFrame(s, t, outcome);
    if Dispatches(s, t) && k == s.tasks[t].key {
      assert OwnsRow(s, s.tasks[t]);
      if Spends(outcome) { DispatchSpends(s, t, outcome); }
    } else {
      KeptSound(s, t, outcome, k);
    }
  }

  lemma DispatchedAreNew(s: System, t: Id, k: Id)
    requires Inv(s) && Supported(s) && Dispatches(s, t) && k in s.acts
    ensures k != s.tasks[t].key
    ensures SharesObservation(s, k, s.tasks[t].key) ==> !Spends(s.acts[k])
  {
    assert OwnsRow(s, s.tasks[t]) && ActSound(s, k);
    if SharesObservation(s, k, s.tasks[t].key) && Spends(s.acts[k]) {
      SpentIsNotDispatched(s, t, k, s.rows.actions[k].request);
    }
  }

  lemma DispatchedOutcomes(s: System, t: Id, outcome: ActOutcome)
    requires Inv(s) && OutcomesKnown(s)
    ensures OutcomesKnown(DispatchStep(s, t, outcome))
  {
    if Dispatches(s, t) {
      forall u | u != t && AtStep(s, u) && s.tasks[u].step.Dispatched? ensures s.tasks[u].key != s.tasks[t].key {
        assert InFlight(s.tasks[u]) && InFlight(s.tasks[t]);
      }
    }
  }

  lemma DispatchSupported(s: System, t: Id, outcome: ActOutcome)
    requires Inv(s) && Supported(s)
    ensures Supported(DispatchStep(s, t, outcome))
  {
    var s' := DispatchStep(s, t, outcome);
    DispatchFrame(s, t, outcome);
    forall k | k in s'.acts ensures ActSound(s', k) { DispatchedAreSound(s, t, outcome, k); }
    DispatchedOutcomes(s, t, outcome);
    DispatchedPairs(s, t, outcome);
  }

  lemma DispatchedPairs(s: System, t: Id, outcome: ActOutcome)
    requires Inv(s) && Supported(s)
    ensures PairsSound(DispatchStep(s, t, outcome))
  {
    DispatchFrame(s, t, outcome);
    if Dispatches(s, t) {
      forall k | k in s.acts
        ensures k != s.tasks[t].key && (SharesObservation(s, k, s.tasks[t].key) ==> !Spends(s.acts[k]))
      {
        DispatchedAreNew(s, t, k);
      }
      PairsGrow(s, DispatchStep(s, t, outcome), s.tasks[t].key, outcome);
    }
  }

  lemma PairsGrow(s: System, s': System, key: Id, outcome: ActOutcome)
    requires PairsSound(s) && s'.acts == s.acts[key := outcome] && s'.rows.actions == s.rows.actions
    requires forall k :: k in s.acts ==> k != key && (SharesObservation(s, k, key) ==> !Spends(s.acts[k]))
    ensures PairsSound(s')
  {
    forall k, l | k in s'.acts && l in s'.acts && k != l && SharesObservation(s', k, l)
      ensures !(Spends(s'.acts[k]) && Spends(s'.acts[l]))
    {
      assert SharesObservation(s, k, l) && SharesObservation(s, l, k);
    }
  }

  lemma KeptSound(s: System, t: Id, outcome: ActOutcome, k: Id)
    requires Inv(s) && k in s.acts && ActSound(s, k) && (Dispatches(s, t) ==> k != s.tasks[t].key)
    ensures ActSound(DispatchStep(s, t, outcome), k)
  {
    DispatchFrame(s, t, outcome);
    if Spends(s.acts[k]) { DispatchSpent(s, t, outcome, k, s.rows.actions[k].request); }
  }

  lemma {:induction false} RunSupported(s: System, events: seq<Event>)
    requires Inv(s) && Supported(s)
    ensures Inv(Run(s, events)) && Supported(Run(s, events))
    decreases |events|
  {
    if events != [] {
      StepKeeps(s, events[0]);
      if events[0].Dispatch? {
        DispatchSupported(s, events[0].t, events[0].outcome);
      } else {
        QuietSupported(s, events[0]);
      }
      RunSupported(Step(s, events[0]), events[1..]);
    }
  }

  /** In every run, of two dispatches on one observation in which the driver acted, or may have, at least
      one could not be recorded. */
  lemma OneRecordedActPerObservation(events: seq<Event>, k: Id, l: Id)
    ensures var s := Run(START, events);
            k in s.acts && l in s.acts && k != l && SharesObservation(s, k, l) && Took(s.acts[k]) && Took(s.acts[l]) ==>
              Unrecorded(s.acts[k]) || Unrecorded(s.acts[l])
  {
    RunSupported(START, events);
  }

  /* ---------- exactly when another can follow ---------- */

  /** In some continuation another key is dispatched on the observation. */
  ghost predicate CanFollow(s: System, observation: Id) {
    exists events, l :: Follows(s, events, l, observation)
  }

  ghost predicate Follows(s: System, events: seq<Event>, l: Id, observation: Id) {
    && l !in s.acts && l in Run(s, events).acts && l in Run(s, events).rows.actions
    && Run(s, events).rows.actions[l].request.observation == observation
  }

  lemma StepAddsNone(s: System, e: Event, k: Id, request: Request, l: Id)
    requires Inv(s) && Supported(s) && Spent(s, k, request) && k in s.acts && l !in s.acts && l in Step(s, e).acts
    ensures l in s.rows.actions && s.rows.actions[l].request.observation != request.observation
  {
    StepOrderly(s, e);
    DispatchFrame(s, e.t, e.outcome);
    assert Dispatches(s, e.t) && s.tasks[e.t].key == l;
    assert OwnsRow(s, s.tasks[e.t]);
    if s.tasks[e.t].request.observation == request.observation { SpentIsNotDispatched(s, e.t, k, request); }
  }

  /** A spent observation is never dispatched on again. */
  lemma {:induction false} SpentStaysUnused(s: System, events: seq<Event>, k: Id, request: Request, l: Id)
    requires Inv(s) && Supported(s) && Spent(s, k, request) && k in s.acts && l !in s.acts
    ensures !Follows(s, events, l, request.observation)
    decreases |events|
  {
    if events != [] {
      var s' := Step(s, events[0]);
      RunSupported(s, [events[0]]);
      assert Run(s, [events[0]]) == Run(s', []) == s';
      StepSpent(s, events[0], k, request);
      if l in s'.acts {
        StepAddsNone(s, events[0], k, request, l);
        RunKeepsRequest(s, events, l);
      } else {
        ActsStay(s, events[0], k);
        SpentStaysUnused(s', events[1..], k, request, l);
      }
    }
  }

  lemma ActsStay(s: System, e: Event, k: Id)
    requires k in s.acts
    ensures k in Step(s, e).acts
  {
    StepOrderly(s, e);
  }

  lemma {:induction false} RunKeepsRequest(s: System, events: seq<Event>, l: Id)
    requires Inv(s) && l in s.rows.actions
    ensures l in Run(s, events).rows.actions && Run(s, events).rows.actions[l].request == s.rows.actions[l].request
    decreases |events|
  {
    if events != [] {
      StepAgesActions(s, events[0]);
      StepKeeps(s, events[0]);
      RunKeepsRequest(Step(s, events[0]), events[1..], l);
    }
  }

  lemma {:induction false} NewKey(used: set<Id>) returns (l: Id)
    ensures forall k :: k in used ==> k < l
    decreases used
  {
    if used == {} { return 0; }
    var m :| m in used;
    var n := NewKey(used - {m});
    l := if m < n then n else m + 1;
    forall k | k in used ensures k < l { assert k == m || k in used - {m}; }
  }

  /** The driver has acted and the result is not settled; the session is as the action found it, its
      handle is there, and the observation has not expired. */
  ghost predicate AwaitsSettling(s: System, t: Id, now: int) {
    && AtStep(s, t) && s.tasks[t].step.Dispatched? && Took(s.tasks[t].step.outcome)
    && var request := s.tasks[t].request;
    && request.session in s.rows.sessions && s.rows.sessions[request.session] == s.tasks[t].session
    && request.session in s.handles
    && request.observation in s.rows.observations && s.rows.observations[request.observation].expires > now
  }

  lemma RecordedCannotBeFollowed(s: System, t: Id, now: int, events: seq<Event>, l: Id)
    requires Inv(s) && Supported(s) && AwaitsSettling(s, t, now) && Spends(s.tasks[t].step.outcome)
    ensures !Follows(s, events, l, s.tasks[t].request.observation)
  {
    var task := s.tasks[t];
    assert OwnsRow(s, task) && ActSound(s, task.key);
    if l !in s.acts { SpentStaysUnused(s, events, task.key, task.request, l); }
  }

  /** The steps of another action on the same observation, from the same task. */
  function NextAct(t: Id, l: Id, request: Request, owner: string, now: int, outcome: ActOutcome): seq<Event> {
    [SettleAct(t), BeginAct(t, l, request, owner, true, now), JournalAct(t), Dispatch(t, outcome)]
  }

  lemma RunFour(s: System, e: Event, f: Event, g: Event, h: Event)
    ensures Run(s, [e, f, g, h]) == Step(Step(Step(Step(s, e), f), g), h)
  {
    var s1, s2, s3 := Step(s, e), Step(Step(s, e), f), Step(Step(Step(s, e), f), g);
    assert [e, f, g, h][1..] == [f, g, h] && [f, g, h][1..] == [g, h] && [g, h][1..] == [h] && [h][1..] == [];
    assert Run(s3, [h]) == Run(Step(s3, h), []);
    assert Run(s2, [g, h]) == Run(s3, [h]);
    assert Run(s1, [f, g, h]) == Run(s2, [g, h]);
  }

  lemma RunNextAct(s: System, t: Id, l: Id, request: Request, owner: string, now: int, outcome: ActOutcome)
    ensures Run(s, NextAct(t, l, request, owner, now, outcome))
              == DispatchStep(JournalStep(BeginActStep(SettleStep(s, t), t, l, request, owner, true, now), t), t,
                outcome)
  {
    RunFour(s, SettleAct(t), BeginAct(t, l, request, owner, true, now), JournalAct(t), Dispatch(t, outcome));
  }

  lemma UnrecordedReleases(s: System, t: Id, now: int)
    requires Inv(s) && LocksExclusive(s) && AwaitsSettling(s, t, now) && Unrecorded(s.tasks[t].step.outcome)
    ensures var request, owner := s.tasks[t].request, s.tasks[t].session.owner;
            && SettleStep(s, t) == Drop(s, t)
            && MayAct(s.rows, request, owner, true, now) && !SessionLocked(Drop(s, t), request.session)
  {
    assert TaskCurrent(s.rows, s.tasks[t]) && Observed(s.rows, s.tasks[t].request);
    assert Locks(s.tasks[t], s.tasks[t].request.session);
  }

  /** A fresh key that passes its checks is journaled and dispatched. */
  lemma FreshAct(s: System, t: Id, l: Id, request: Request, owner: string, now: int, outcome: ActOutcome)
    requires t !in s.tasks && l !in s.rows.actions && request.session in s.handles
    requires MayAct(s.rows, request, owner, true, now) && !SessionLocked(s, request.session)
    ensures var s' := DispatchStep(JournalStep(BeginActStep(s, t, l, request, owner, true, now), t), t, outcome);
            s'.acts == s.acts[l := outcome] && s'.rows.actions == s.rows.actions[l := ActionRow(request, None)]
  {
    var begun := Put(s, t, ActTask(Checked, l, request, s.rows.sessions[request.session]));
    assert BeginActStep(s, t, l, request, owner, true, now) == begun;
    var journaled := JournalStep(begun, t);
    assert AtStep(journaled, t) && journaled.tasks[t].step.Journaled? && journaled.tasks[t].key == l;
  }

  /** Whatever the driver then does, a second key is dispatched on the observation of the first. */
  lemma UnrecordedIsFollowed(s: System, t: Id, now: int, l: Id, outcome: ActOutcome)
    requires Inv(s) && Supported(s) && AwaitsSettling(s, t, now) && Unrecorded(s.tasks[t].step.outcome)
    requires l !in s.acts && l !in s.rows.actions
    ensures var request := s.tasks[t].request;
            var events := NextAct(t, l, request, s.tasks[t].session.owner, now, outcome);
            && Follows(s, events, l, request.observation)
            && s.tasks[t].key in Run(s, events).acts
            && Run(s, events).acts[l] == outcome && Run(s, events).acts[s.tasks[t].key] == s.tasks[t].step.outcome
            && SharesObservation(Run(s, events), s.tasks[t].key, l)
  {
    var task := s.tasks[t];
    var request, owner := task.request, task.session.owner;
    UnrecordedReleases(s, t, now);
    assert OwnsRow(s, task);
    FreshAct(Drop(s, t), t, l, request, owner, now, outcome);
    RunNextAct(s, t, l, request, owner, now, outcome);
  }

  /** Once the driver has acted on an observation, or may have, a further action can be dispatched on it
      exactly when an artifact of the first could not be stored. */
  lemma AnotherCanFollowExactly(events: seq<Event>, t: Id, now: int)
    requires AwaitsSettling(Run(START, events), t, now)
    ensures var s := Run(START, events);
            CanFollow(s, s.tasks[t].request.observation) <==> Unrecorded(s.tasks[t].step.outcome)
  {
    var s := Run(START, events);
    RunSupported(START, events);
    if Unrecorded(s.tasks[t].step.outcome) {
      var l := NewKey(s.acts.Keys + s.rows.actions.Keys);
      UnrecordedIsFollowed(s, t, now, l, Acted({}, true));
    } else {
      forall es, l ensures !Follows(s, es, l, s.tasks[t].request.observation) {
        RecordedCannotBeFollowed(s, t, now, es, l);
      }
    }
  }

  /* ---------- a run that does it ---------- */

  const CLICK := Request(1, "page", 2, 1, "browser.click", "save")

  /** Open a session and observe its page; then click, the driver's artifacts being lost. */
  const OPENING: seq<Event> := [
    BeginOpen(0, 1, false, "owner"), FinishOpen(0, DriverOpened({"page"})),
    BeginObserve(0, 1, "page", 1, "owner"), FinishObserve(0, 2, 10)]

  const CLICKING: seq<Event> := [BeginAct(0, 3, CLICK, "owner", true, 0), JournalAct(0),
    Dispatch(0, Acted({"page"}, false))]

  const OPENED := Session(Active, 1, false, "owner", {"page"}, None)

  const OBSERVED := System(Rows(map[1 := OPENED], map[2 := Observation(1, "page", 1, 10)], map[]), {1}, map[], map[],
    map[], map[])

  lemma OpenedAndObserved()
    ensures Run(START, OPENING) == OBSERVED
  {
    var opening := Session(Opening, 0, false, "owner", {}, None);
    var s1 := BeginOpenStep(START, 0, 1, false, "owner");
    assert s1 == System(Rows(map[1 := opening], map[], map[]), {}, map[0 := OpenTask(1, opening)], map[], map[], map[]);
    var s2 := FinishOpenStep(s1, 0, DriverOpened({"page"}));
    assert s2 == System(Rows(map[1 := OPENED], map[], map[]), {1}, map[], map[], map[], map[]);
    var s3 := BeginObserveStep(s2, 0, 1, "page", 1, "owner");
    assert s3 == s2.(tasks := map[0 := ObserveTask(1, "page", 1)]);
    assert FinishObserveStep(s3, 0, 2, 10) == OBSERVED;
    RunFour(START, OPENING[0], OPENING[1], OPENING[2], OPENING[3]);
  }

  lemma ClickedOnce()
    ensures var s := Run(OBSERVED, CLICKING);
            && AwaitsSettling(s, 0, 0) && s.tasks[0] == ActTask(Dispatched(Acted({"page"}, false)), 3, CLICK, OPENED)
            && s.acts.Keys == {3} && s.rows.actions.Keys == {3}
  {
    var begun := BeginActStep(OBSERVED, 0, 3, CLICK, "owner", true, 0);
    assert begun == Put(OBSERVED, 0, ActTask(Checked, 3, CLICK, OPENED));
    var journaled := JournalStep(begun, 0);
    assert AtStep(journaled, 0) && journaled.tasks[0] == ActTask(Journaled, 3, CLICK, OPENED);
    RunThree(OBSERVED, CLICKING[0], CLICKING[1], CLICKING[2]);
  }

  lemma Continued(es: seq<Event>, s: System, t: Id, now: int, l: Id, outcome: ActOutcome)
    requires s == Run(START, es) && AwaitsSettling(s, t, now) && Unrecorded(s.tasks[t].step.outcome)
    requires l !in s.acts && l !in s.rows.actions
    ensures var task := s.tasks[t];
            var s' := Run(START, es + NextAct(t, l, task.request, task.session.owner, now, outcome));
            && task.key in s'.acts && l in s'.acts && SharesObservation(s', task.key, l)
            && s'.acts[task.key] == task.step.outcome && s'.acts[l] == outcome
  {
    RunSupported(START, es);
    UnrecordedIsFollowed(s, t, now, l, outcome);
    RunAppend(START, es, NextAct(t, l, s.tasks[t].request, s.tasks[t].session.owner, now, outcome));
  }

  const CLICKING_AGAIN := NextAct(0, 4, CLICK, "owner", 0, Acted({"page"}, true))

  /** Two keys are dispatched on one observation, and the driver acts both times. */
  lemma OneObservationActedOnTwice()
    ensures var s := Run(START, OPENING + CLICKING + CLICKING_AGAIN);
            && 3 in s.acts && 4 in s.acts && SharesObservation(s, 3, 4)
            && s.acts[3] == Acted({"page"}, false) && s.acts[4] == Acted({"page"}, true)
  {
    OpenedAndObserved();
    ClickedOnce();
    RunAppend(START, OPENING, CLICKING);
    Continued(OPENING + CLICKING, Run(OBSERVED, CLICKING), 0, 0, 4, Acted({"page"}, true));
  }

  lemma RunThree(s: System, f: Event, g: Event, h: Event)
    ensures Run(s, [f, g, h]) == Step(Step(Step(s, f), g), h)
  {
    var s1, s2 := Step(s, f), Step(Step(s, f), g);
    assert [f, g, h][1..] == [g, h] && [g, h][1..] == [h] && [h][1..] == [];
    assert Run(s2, [h]) == Run(Step(s2, h), []);
    assert Run(s1, [g, h]) == Run(s2, [h]);
  }

  lemma {:induction false} RunAppend(s: System, es: seq<Event>, fs: seq<Event>)
    ensures Run(s, es + fs) == Run(Run(s, es), fs)
    decreases |es|
  {
    if es == [] {
      assert es + fs == fs;
    } else {
      assert (es + fs)[1..] == es[1..] + fs;
      RunAppend(Step(s, es[0]), es[1..], fs);
    }
  }
}
