/** Browser session, observation and action rows, with one function per transaction. Targets,
    origins, credentials and literals are judged by the caller and arrive as one verdict. */
module BrowserSessions {
  import opened Outcomes

  type Id = nat

  datatype SessionState = Opening | Active | Closing | Closed | Lost | SessionFailed | Uncertain

  datatype Session = Session(
    state: SessionState, revision: nat, persistent: bool, owner: string, pages: set<string>, effect: Option<string>)

  datatype Observation = Observation(session: Id, page: string, revision: nat, expires: int)

  datatype Request = Request(
    session: Id, page: string, observation: Id, revision: nat, effect: string, content: string)

  datatype ActionState = Completed | ActionFailed | Cancelled | ActionUncertain

  datatype ActionResult = ActionResult(state: ActionState, revision: nat, invalidated: bool)

  /** The journal row of an idempotency key; no result means incomplete. */
  datatype ActionRow = ActionRow(request: Request, result: Option<ActionResult>)

  datatype Rows = Rows(
    sessions: map<Id, Session>, observations: map<Id, Observation>, actions: map<Id, ActionRow>)

  datatype OpenOutcome = DriverOpened(pages: set<string>) | OpenUncertain | OpenFailed

  /** How the driver's `act` ended; `recorded` tells whether its artifacts could be stored. */
  datatype ActOutcome =
    | Acted(pages: set<string>, recorded: bool)
    | CancelledBeforeDispatch
    | CertaintyLost
    | Raised

  predicate LiveState(s: SessionState) { s in {Opening, Active, Closing} }

  function InsertSession(r: Rows, id: Id, s: Session): Rows { r.(sessions := r.sessions[id := s]) }

  /** The compare-and-swap on the row's revision. */
  function Replace(r: Rows, id: Id, s: Session, expected: nat): Result<Rows> {
    if id !in r.sessions || r.sessions[id].revision != expected then Refused(RevisionMismatch)
    else Ok(r.(sessions := r.sessions[id := s]))
  }

  function OpenedSession(s: Session, outcome: OpenOutcome): Session {
    match outcome
    case DriverOpened(pages) => s.(state := Active, revision := 1, pages := pages)
    case OpenUncertain => s.(state := Uncertain, revision := 1, effect := Some("browser.session.open"))
    case OpenFailed =>
      if s.persistent then s.(state := Uncertain, revision := 1, effect := Some("browser.profile.write"))
      else s.(state := SessionFailed, revision := 1)
  }

  function ClosingSession(s: Session): Session { s.(state := Closing, revision := s.revision + 1) }

  /** The row after the driver closed, or after it could not be told whether it did. */
  function EndedSession(s: Session, closed: bool): Session {
    if closed then s.(state := Closed, revision := s.revision + 1)
    else s.(state := Uncertain, revision := s.revision + 1,
            effect := Some(if s.persistent then "browser.profile.snapshot" else "browser.session.close"))
  }

  /** `_action_by_key`: nothing recorded, the stored result of the same request, or a refusal. */
  function ActionByKey(r: Rows, key: Id, request: Request): Result<Option<ActionResult>> {
    if key !in r.actions then Ok(None)
    else if r.actions[key].request != request then Refused(DuplicateResult)
    else if r.actions[key].result == None then Refused(BrowserError)
    else Ok(r.actions[key].result)
  }

  /** The observation is of this page of the session, at its current revision, and unexpired. */
  predicate Fresh(r: Rows, request: Request, now: int) {
    && request.session in r.sessions
    && request.observation in r.observations
    && var o := r.observations[request.observation];
       && o.session == request.session && o.page == request.page
       && o.revision == r.sessions[request.session].revision
       && o.expires > now
  }

  predicate MayAct(r: Rows, request: Request, owner: string, authorized: bool, now: int) {
    && request.session in r.sessions
    && r.sessions[request.session].owner == owner
    && r.sessions[request.session].state == Active
    && r.sessions[request.session].revision == request.revision
    && Fresh(r, request, now)
    && authorized
  }

  /** The first check of an action that fails; `verdict` is that on its target, origins, literal and
      credential, which come last. */
  function ActRefusal(
    r: Rows, request: Request, owner: string, verdict: Option<Code>, now: int): (refusal: Option<Code>)
    ensures refusal == None <==> MayAct(r, request, owner, verdict == None, now)
  {
    if request.session !in r.sessions then Some(BrowserError)
    else
      var s := r.sessions[request.session];
      if s.owner != owner then Some(AuthorityNotGranted)
      else if s.state != Active then Some(BrowserError)
      else if s.revision != request.revision then Some(RevisionMismatch)
      else if !Fresh(r, request, now) then Some(BrowserError)
      else verdict
  }

  /** The first check of a close that fails. */
  function CloseRefusal(r: Rows, handles: set<Id>, id: Id, owner: string): Option<Code> {
    if id !in r.sessions then Some(BrowserError)
    else if r.sessions[id].owner != owner then Some(AuthorityNotGranted)
    else if r.sessions[id].state == Closed then None
    else if r.sessions[id].state != Active || id !in handles then Some(BrowserError)
    else None
  }

  function Journal(r: Rows, key: Id, request: Request): Rows {
    r.(actions := r.actions[key := ActionRow(request, None)])
  }

  function Complete(r: Rows, key: Id, result: ActionResult): Rows
    requires key in r.actions
  {
    r.(actions := r.actions[key := r.actions[key].(result := Some(result))])
  }

  /** What the session row becomes, if the outcome changes it. */
  function SettledSession(s: Session, request: Request, outcome: ActOutcome): Option<Session> {
    match outcome
    case Acted(pages, _) => Some(s.(revision := s.revision + 1, pages := pages))
    case CertaintyLost => Some(s.(state := Uncertain, revision := s.revision + 1, effect := Some(request.effect)))
    case CancelledBeforeDispatch => None
    case Raised => None
  }

  function ResultOf(s: Session, outcome: ActOutcome): ActionResult {
    match outcome
    case Acted(_, _) => ActionResult(Completed, s.revision + 1, true)
    case CertaintyLost => ActionResult(ActionUncertain, s.revision + 1, true)
    case CancelledBeforeDispatch => ActionResult(Cancelled, s.revision, false)
    case Raised => ActionResult(ActionFailed, s.revision, true)
  }

  /** Settle an outcome on the session as it was when the action was checked. */
  function Settle(r: Rows, request: Request, s: Session, outcome: ActOutcome): Result<Rows> {
    if outcome.Acted? && !outcome.recorded then Refused(ArtifactError)
    else
      match SettledSession(s, request, outcome)
      case None => Ok(r)
      case Some(s') => Replace(r, request.session, s', s.revision)
  }

  /** The result says that its observation was invalidated. That is wrong exactly when the driver raised:
      then, as after a cancellation, the same checks let another action use the same observation. */
  lemma InvalidationClaimIsFalseForFailures(r: Rows, request: Request, outcome: ActOutcome, owner: string, now: int)
    requires MayAct(r, request, owner, true, now)
    requires Settle(r, request, r.sessions[request.session], outcome).Ok?
    ensures var s := r.sessions[request.session];
            var r' := Settle(r, request, s, outcome).value;
            var result := ResultOf(s, outcome);
            && ((result.invalidated <==> !Fresh(r', request, now)) <==> !outcome.Raised?)
            && (MayAct(r', request, owner, true, now) <==> outcome.Raised? || outcome.CancelledBeforeDispatch?)
  {}

  /* ---------- reconciliation after a restart ---------- */

  predicate Unresolved(r: Rows, id: Id) {
    exists k :: k in r.actions && r.actions[k].request.session == id && r.actions[k].result == None
  }

  function LifecycleEffect(s: SessionState): Option<string> {
    match s
    case Opening => Some("browser.session.open")
    case Closing => Some("browser.session.close")
    case _ => None
  }

  /** The row that a restart leaves; `effect` is that of an unresolved action, if there is one. */
  function ReconciledSession(s: Session, effect: Option<string>): Session {
    var cause := if effect.Some? then effect else LifecycleEffect(s.state);
    s.(state := if cause.Some? then Uncertain else Lost, revision := s.revision + 1, effect := cause)
  }

  /** `effect` is that of an unresolved action of the session. */
  ghost predicate UnresolvedEffect(r: Rows, id: Id, effect: string) {
    exists k :: k in r.actions && r.actions[k] == ActionRow(r.actions[k].request, None)
                && r.actions[k].request.session == id && r.actions[k].request.effect == effect
  }

  /** One unresolved action's effect for each session that has any. */
  ghost predicate UnresolvedEffects(r: Rows, effects: map<Id, string>) {
    && (forall id :: id in effects <==> Unresolved(r, id))
    && (forall id :: id in effects ==> UnresolvedEffect(r, id, effects[id]))
  }

  function Restarted(s: Session, effects: map<Id, string>, id: Id): Session {
    ReconciledSession(s, if id in effects then Some(effects[id]) else None)
  }
}
