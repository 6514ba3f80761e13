/** The browser supervisor as an object: each call rewrites its rows and handles in place. What
    the driver did, and the verdict on targets, origins and credentials, are arguments. */
module BrowserSupervisor {
  import opened Outcomes
  import opened Listings
  import opened BrowserSessions

  /** `act` with nothing else running on the session. */
  function ActCall(r: Rows, handles: set<Id>, key: Id, request: Request, owner: string, verdict: Option<Code>, now: int,
               outcome: ActOutcome): (Rows, Result<ActionResult>)
  {
    match ActionByKey(r, key, request)
    case Refused(code) => (r, Refused(code))
    case Ok(Some(result)) => (r, Ok(result))
    case Ok(None) =>
      var refusal := ActRefusal(r, request, owner, verdict, now);
      if refusal.Some? then (r, Refused(refusal.value))
      else
        var journaled := Journal(r, key, request);
        if request.session !in handles then (journaled, Refused(BrowserError))
        else
          match Settle(journaled, request, r.sessions[request.session], outcome)
          case Refused(code) => (journaled, Refused(code))
          case Ok(settled) =>
            var result := ResultOf(r.sessions[request.session], outcome);
            (Complete(settled, key, result), Ok(result))
  }

  /** Repeating a call: a result comes back unchanged with no further effect, whatever the driver
      would do now; a call that was journaled but not completed is refused. */
  lemma RepeatedActHasNoEffect(
    r: Rows, handles: set<Id>, key: Id, request: Request, owner: string, verdict: Option<Code>,
    now: int, outcome: ActOutcome, handles': set<Id>, verdict': Option<Code>, now': int, outcome': ActOutcome)
    ensures var (r', first) := ActCall(r, handles, key, request, owner, verdict, now, outcome);
            key in r'.actions ==>
              && ActCall(r', handles', key, request, owner, verdict', now', outcome').0 == r'
              && (first.Ok? ==> ActCall(r', handles', key, request, owner, verdict', now', outcome').1 == first)
              && (first.Refused? ==> ActCall(r', handles', key, request, owner, verdict', now', outcome').1.Refused?)
  {}

  /** After a call, the same request under a fresh key passes its checks exactly when the driver raised,
      was cancelled, or acted without its artifacts being stored; it is then carried out. */
  lemma ObservationAfterCall(
    r: Rows, handles: set<Id>, key: Id, request: Request, owner: string, now: int, outcome: ActOutcome,
                             next: Id, outcome': ActOutcome)
    requires key !in r.actions && next !in r.actions && next != key
    requires ActRefusal(r, request, owner, None, now) == None && request.session in handles
    requires outcome'.Acted? ==> outcome'.recorded
    ensures var r' := ActCall(r, handles, key, request, owner, None, now, outcome).0;
            var free := outcome.Raised? || outcome.CancelledBeforeDispatch? || (outcome.Acted? && !outcome.recorded);
            && (ActRefusal(r', request, owner, None, now) == None <==> free)
            && (ActCall(r', handles, next, request, owner, None, now, outcome').1.Ok? <==> free)
  {
    var r' := ActCall(r, handles, key, request, owner, None, now, outcome).0;
    assert request.session in r'.sessions && next !in r'.actions;
  }

  class Supervisor {
    var sessions: map<Id, Session>
    var observations: map<Id, Observation>
    var actions: map<Id, ActionRow>
    var handles: set<Id>

    function State(): Rows
      reads this
    {
      Rows(sessions, observations, actions)
    }

    method ReplaceSession(id: Id, row: Session, expected: nat) returns (ok: bool)
      modifies this`sessions
      ensures var spec := Replace(old(State()), id, row, expected);
              ok == spec.Ok? && State() == (if ok then spec.value else old(State()))
    {
      if id !in sessions || sessions[id].revision != expected { return false; }
      sessions := sessions[id := row];
      return true;
    }

    /** Insert the opening row, let the driver open, and record what became of it. */
    method Open(id: Id, persistent: bool, owner: string, outcome: OpenOutcome) returns (row: Session)
      requires id !in sessions
      modifies this`sessions, this`handles
      ensures sessions == old(sessions)[id := row]
      ensures row.state == match outcome
                           case DriverOpened(_) => Active
                           case OpenUncertain => Uncertain
                           case OpenFailed => if persistent then Uncertain else SessionFailed
      ensures row.persistent == persistent && row.owner == owner
      ensures row.pages == if outcome.DriverOpened? then outcome.pages else {}
      ensures row.effect == match outcome
                            case DriverOpened(_) => None
                            case OpenUncertain => Some("browser.session.open")
                            case OpenFailed => if persistent then Some("browser.profile.write") else None
      ensures handles == old(handles) + if outcome.DriverOpened? then {id} else {}
      ensures row.revision == 1
    {
      var opening := Session(Opening, 0, persistent, owner, {}, None);
      sessions := sessions[id := opening];
      row := OpenedSession(opening, outcome);
      var ok := ReplaceSession(id, row, 0);
      if outcome.DriverOpened? { handles := handles + {id}; }
    }

    method Act(key: Id, request: Request, owner: string, verdict: Option<Code>, now: int, outcome: ActOutcome)
      returns (r: Result<ActionResult>)
      modifies this`sessions, this`actions
      ensures (State(), r) == ActCall(old(State()), handles, key, request, owner, verdict, now, outcome)
    {
      match ActionByKey(State(), key, request)
      case Refused(code) => return Refused(code);
      case Ok(Some(result)) => return Ok(result);
      case Ok(None) =>
        var refusal := ActRefusal(State(), request, owner, verdict, now);
        if refusal.Some? { return Refused(refusal.value); }
        var browser := sessions[request.session];
        actions := actions[key := ActionRow(request, None)];
        if request.session !in handles { return Refused(BrowserError); }
        if outcome.Acted? && !outcome.recorded { return Refused(ArtifactError); }
        var settled := SettledSession(browser, request, outcome);
        if settled.Some? {
          var ok := ReplaceSession(request.session, settled.value, browser.revision);
          assert ok;
        }
        var result := ResultOf(browser, outcome);
        actions := actions[key := ActionRow(request, Some(result))];
        return Ok(result);
    }

    method Close(id: Id, owner: string, closed: bool) returns (r: Result<Session>)
      modifies this`sessions, this`handles
      ensures var refusal := CloseRefusal(old(State()), old(handles), id, owner);
              (r.Ok? <==> refusal == None) && (r.Refused? ==> refusal == Some(r.code))
      ensures r.Refused? ==> State() == old(State()) && handles == old(handles)
      ensures r.Ok? && old(sessions)[id].state == Closed ==>
              r.value == old(sessions)[id] && State() == old(State()) && handles == old(handles)
      ensures r.Ok? && old(sessions)[id].state == Active ==>
                && r.value.state == (if closed then Closed else Uncertain)
                && r.value.revision == old(sessions)[id].revision + 2
                && r.value.owner == owner && r.value.persistent == old(sessions)[id].persistent
                && r.value.pages == old(sessions)[id].pages
                && r.value.effect == (if closed then old(sessions)[id].effect
                                      else if old(sessions)[id].persistent then Some("browser.profile.snapshot")
                                      else Some("browser.session.close"))
                && State() == old(State()).(sessions := old(sessions)[id := r.value]) && handles == old(handles) - {id}
    {
      if id !in sessions { return Refused(BrowserError); }
      if sessions[id].owner != owner { return Refused(AuthorityNotGranted); }
      var browser := sessions[id];
      if browser.state == Closed { return Ok(browser); }
      if browser.state != Active || id !in handles { return Refused(BrowserError); }
      var closing := ClosingSession(browser);
      var began := ReplaceSession(id, closing, browser.revision);
      var last := EndedSession(closing, closed);
      handles := handles - {id};
      var ended := ReplaceSession(id, last, closing.revision);
      return Ok(last);
    }

    /** The unresolved actions by session; a later row of a session overrides an earlier one. */
    method IncompleteEffects() returns (effects: map<Id, string>)
      ensures UnresolvedEffects(State(), effects)
    {
      effects := map[];
      var keys := Listing(actions.Keys);
      for i := 0 to |keys|
        invariant forall k :: k in keys[..i] && actions[k].result == None ==> actions[k].request.session in effects
        invariant forall id :: id in effects ==> UnresolvedEffect(State(), id, effects[id])
      {
        var row := actions[keys[i]];
        assert keys[..i + 1] == keys[..i] + [keys[i]];
        if row.result == None { effects := effects[row.request.session := row.request.effect]; }
      }
      assert keys[..|keys|] == keys;
    }

    /** After a restart no session is left in a live state: each live one becomes uncertain exactly
        when an action or a lifecycle effect was unresolved, and lost otherwise. */
    method ReconcileAll()
      modifies this`sessions
      ensures sessions.Keys == old(sessions).Keys
      ensures forall id :: id in sessions ==> sessions[id].state !in {Opening, Active, Closing}
      ensures forall id :: id in sessions && old(sessions)[id].state !in {Opening, Active, Closing} ==>
                sessions[id] == old(sessions)[id]
      ensures forall id :: id in sessions && old(sessions)[id].state in {Opening, Active, Closing} ==>
                IsReconciled(old(State()), id, sessions[id])
    {
      var incomplete := IncompleteEffects();
      var rows := sessions;
      var live := Listing(set id | id in sessions && LiveState(sessions[id].state));
      for i := 0 to |live|
        invariant sessions.Keys == rows.Keys
        invariant forall id :: id in rows && id !in live[..i] ==> id in sessions && sessions[id] == rows[id]
        invariant forall id :: id in rows && id in live[..i] ==>
                  id in sessions && sessions[id] == Restarted(rows[id], incomplete, id)
      {
        var id := live[i];
        assert id in live && id in rows;
        assert live[..i + 1] == live[..i] + [id];
        var ok := ReplaceSession(id, Restarted(rows[id], incomplete, id), rows[id].revision);
      }
      assert live[..|live|] == live;
      forall id | id in sessions && LiveState(old(sessions)[id].state) ensures IsReconciled(old(State()), id,
        sessions[id]) {
        RestartedIsReconciled(old(State()), incomplete, id);
      }
    }
  }

  /** An action on the session that was journaled and has no result. */
  predicate Interrupted(row: ActionRow, id: Id) { row.request.session == id && row.result == None }

  /** What a restart owes a live session: one revision on, uncertain exactly when an action or a
      lifecycle effect was unresolved and then with that effect, and lost otherwise. */
  ghost predicate IsReconciled(r: Rows, id: Id, s': Session)
    requires id in r.sessions
  {
    var s := r.sessions[id];
    var unresolved := exists k :: k in r.actions && Interrupted(r.actions[k], id);
    && s'.revision == s.revision + 1 && s'.pages == s.pages && s'.owner == s.owner && s'.persistent == s.persistent
    && s'.state == (if unresolved || s.state in {Opening, Closing} then Uncertain else Lost)
    && (unresolved ==>
          exists k :: k in r.actions && Interrupted(r.actions[k], id)
                      && s'.effect == Some(r.actions[k].request.effect))
    && (!unresolved ==>
          s'.effect == if s.state == Opening then Some("browser.session.open")
                       else if s.state == Closing then Some("browser.session.close") else None)
  }

  lemma RestartedIsReconciled(r: Rows, effects: map<Id, string>, id: Id)
    requires id in r.sessions && LiveState(r.sessions[id].state) && UnresolvedEffects(r, effects)
    ensures IsReconciled(r, id, Restarted(r.sessions[id], effects, id))
  {}
}
