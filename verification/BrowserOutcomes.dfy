/** What each browser call answers and leaves, field by field, and what brings a session into each state. */
module BrowserOutcomes {
  import opened Outcomes
  import opened BrowserSessions
  import opened BrowserSupervisor

  /* ---------- checks ---------- */

  /** The session is the caller's, active and at the revision that the request names. */
  predicate Addressed(r: Rows, request: Request, owner: string) {
    && request.session in r.sessions && r.sessions[request.session].owner == owner
    && r.sessions[request.session].state == Active && r.sessions[request.session].revision == request.revision
  }

  /** The observation was made of the same page of the same session at the same revision, and has not expired. */
  predicate SeenNow(r: Rows, request: Request, now: int) {
    && request.observation in r.observations
    && r.observations[request.observation].session == request.session
    && r.observations[request.observation].page == request.page
    && r.observations[request.observation].revision == request.revision
    && now < r.observations[request.observation].expires
  }

  /** An action passes its checks exactly on an addressed session with a current observation and a good verdict. The
      first failing check decides the code. */
  lemma ActionPassesExactly(r: Rows, request: Request, owner: string, verdict: Option<Code>, now: int)
    ensures var refusal := ActRefusal(r, request, owner, verdict, now);
            && (refusal == None <==> Addressed(r, request, owner) && SeenNow(r, request, now) && verdict == None)
            && (Addressed(r, request, owner) && SeenNow(r, request, now) ==> refusal == verdict)
            && (Addressed(r, request, owner) && !SeenNow(r, request, now) ==> refusal == Some(BrowserError))
            && (!Addressed(r, request, owner) ==>
                  refusal == Some(if request.session !in r.sessions then BrowserError
                                  else if r.sessions[request.session].owner != owner then AuthorityNotGranted
                                  else if r.sessions[request.session].state != Active then BrowserError
                                  else RevisionMismatch))
  {}

  /** A close passes exactly for the owner's session that is closed, or active with a live handle. */
  lemma ClosePassesExactly(r: Rows, handles: set<Id>, id: Id, owner: string)
    ensures var refusal := CloseRefusal(r, handles, id, owner);
            && (refusal == None <==>
                  && id in r.sessions && r.sessions[id].owner == owner
                  && (r.sessions[id].state == Closed || (r.sessions[id].state == Active && id in handles)))
            && (refusal.Some? ==>
                  refusal.value == if id in r.sessions && r.sessions[id].owner != owner
                                   then AuthorityNotGranted else BrowserError)
  {}

  /** A key that was used answers the same request with its stored result, refuses it while there is none, and refuses
      every other request as a duplicate; nothing is done for it. */
  lemma UsedKeysReplayExactly(
    r: Rows, handles: set<Id>, key: Id, request: Request, owner: string, verdict: Option<Code>, now: int,
    outcome: ActOutcome)
    requires key in r.actions
    ensures var (r', answer) := ActCall(r, handles, key, request, owner, verdict, now, outcome);
            && r' == r
            && answer == if r.actions[key].request != request then Refused(DuplicateResult)
                         else if r.actions[key].result == None then Refused(BrowserError)
                         else Ok(r.actions[key].result.value)
  {}

  /* ---------- acting ---------- */

  /** A new key whose checks fail leaves no trace. */
  lemma RefusedActionsLeaveNothing(
    r: Rows, handles: set<Id>, key: Id, request: Request, owner: string, verdict: Option<Code>, now: int,
    outcome: ActOutcome)
    requires key !in r.actions
    requires !(Addressed(r, request, owner) && SeenNow(r, request, now) && verdict == None)
    ensures ActCall(r, handles, key, request, owner, verdict, now, outcome).0 == r
    ensures ActCall(r, handles, key, request, owner, verdict, now, outcome).1.Refused?
  {}

  /** The session row and the result that an outcome calls for. */
  predicate Settled(s: Session, s': Session, request: Request, outcome: ActOutcome, result: ActionResult) {
    match outcome
    case Acted(pages, _) =>
      && s' == s.(revision := s.revision + 1, pages := pages)
      && result == ActionResult(Completed, s.revision + 1, true)
    case CertaintyLost =>
      && s' == s.(state := Uncertain, revision := s.revision + 1, effect := Some(request.effect))
      && result == ActionResult(ActionUncertain, s.revision + 1, true)
    case CancelledBeforeDispatch => s' == s && result == ActionResult(Cancelled, s.revision, false)
    case Raised => s' == s && result == ActionResult(ActionFailed, s.revision, true)
  }

  /** A new key whose checks pass is journaled. Without a live handle, or when the artifacts of the action cannot be
      stored, that is all; otherwise the session and the result follow the driver's outcome. */
  lemma ActionsLeaveExactly(
    r: Rows, handles: set<Id>, key: Id, request: Request, owner: string, now: int, outcome: ActOutcome)
    requires key !in r.actions && Addressed(r, request, owner) && SeenNow(r, request, now)
    ensures var (r', answer) := ActCall(r, handles, key, request, owner, None, now, outcome);
            var carried := request.session in handles && (outcome.Acted? ==> outcome.recorded);
            && key in r'.actions && r'.actions == r.actions[key := r'.actions[key]]
            && r'.actions[key].request == request && r'.observations == r.observations
            && request.session in r'.sessions
            && r'.sessions == r.sessions[request.session := r'.sessions[request.session]]
            && (!carried ==>
                  && r'.sessions == r.sessions && r'.actions[key].result == None
                  && answer == Refused(if request.session in handles then ArtifactError else BrowserError))
            && (carried ==>
                  && answer.Ok? && r'.actions[key].result == Some(answer.value)
                  && Settled(r.sessions[request.session], r'.sessions[request.session], request, outcome, answer.value))
  {
    ActionPassesExactly(r, request, owner, None, now);
  }
}
