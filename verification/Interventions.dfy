/** Executive interventions: the guards that read a mission's history, and the language of
    histories that they admit. Timestamps are UTC instants; their stored text sorts alike. */
module Interventions {
  import opened Outcomes

  type Id = nat

  datatype Kind =
    | Comment | AnswerEscalation | AcceptProposal | RejectProposal | Suspend | Resume
    | RequestReassignment | ConfirmReassignment | Stop | AcceptRisk

  datatype TargetKind = OnMission | OnTask | OnProposal | OnAssignment | OnRisk | OnEscalation

  datatype MissionState =
    | Proposed | Clarifying | Planned | Active | Paused | Blocked | Evaluating | Remediating
    | Completed | MissionFailed | Cancelled

  datatype Target = Target(mission: Id, kind: TargetKind, id: Id)

  datatype Intervention = Intervention(
    id: Id, conversation: Id, target: Target, kind: Kind, escalation: Option<Id>, option: Option<string>,
    resulting: Option<MissionState>, at: int, settlement: bool, content: string)

  datatype Mission = Mission(state: MissionState, revision: nat)

  datatype Escalation = Escalation(mission: Id, options: set<string>, answer: Option<Id>)

  /** Rows in the order in which they were applied. */
  datatype History = Nothing | Then(before: History, last: Intervention)

  /** `assignments` gives the mission and task of each assignment; `staged` the mission of each
      staged proposal; `settled` that of every other recorded decision; `risks` those of a mission. */
  datatype Repository = Repository(
    missions: map<Id, Mission>, history: History, escalations: map<Id, Escalation>,
    assignments: map<Id, (Id, Id)>, staged: map<Id, Id>, settled: map<Id, Id>, risks: map<Id, set<Id>>)

  const CONTROLS := {Suspend, Resume, Stop}
  const DISPOSITIONS := {AcceptProposal, RejectProposal}
  const REASSIGNMENTS := {RequestReassignment, ConfirmReassignment}

  /* ---------- the record's own validator ---------- */

  function AllowedTargets(k: Kind): set<TargetKind> {
    match k
    case Comment => {OnMission, OnTask, OnProposal, OnAssignment, OnRisk, OnEscalation}
    case AnswerEscalation => {OnEscalation}
    case AcceptProposal => {OnProposal}
    case RejectProposal => {OnProposal}
    case Suspend => {OnMission, OnTask}
    case Resume => {OnMission, OnTask}
    case RequestReassignment => {OnTask, OnAssignment}
    case ConfirmReassignment => {OnTask, OnAssignment}
    case Stop => {OnMission, OnTask}
    case AcceptRisk => {OnRisk}
  }

  function MissionResult(k: Kind): Option<MissionState> {
    match k
    case Suspend => Some(Paused)
    case Resume => Some(Active)
    case Stop => Some(Cancelled)
    case _ => None
  }

  /** What a validated record of the settlement contract satisfies. */
  predicate Valid(i: Intervention) {
    && i.target.kind in AllowedTargets(i.kind)
    && (if i.kind == AnswerEscalation then i.escalation == Some(i.target.id) && i.option.Some?
        else i.escalation == None && i.option == None)
    && i.resulting == (if i.target.kind == OnMission then MissionResult(i.kind) else None)
  }

  /* ---------- reading the history ---------- */

  /** Rows by creation time; equal times keep their order. */
  function Insert(h: History, i: Intervention): History {
    if h == Nothing || h.last.at <= i.at then Then(h, i) else Then(Insert(h.before, i), h.last)
  }

  function ByTime(h: History): History {
    if h == Nothing then Nothing else Insert(ByTime(h.before), h.last)
  }

  predicate Matches(i: Intervention, t: Target, kinds: set<Kind>) { i.target == t && i.kind in kinds }

  /** The kinds of the matching rows, in order. */
  function Kinds(h: History, t: Target, kinds: set<Kind>): seq<Kind> {
    if h == Nothing then [] else Kinds(h.before, t, kinds) + if Matches(h.last, t, kinds) then [h.last.kind] else []
  }

  function Latest(h: History, t: Target, kinds: set<Kind>): Option<Kind> {
    var found := Kinds(ByTime(h), t, kinds);
    if found == [] then None else Some(found[|found| - 1])
  }

  predicate Has(h: History, id: Id) { h.Then? && (h.last.id == id || Has(h.before, id)) }

  function Stored(h: History, id: Id): Intervention
    requires Has(h, id)
  {
    if h.last.id == id then h.last else Stored(h.before, id)
  }

  /** Every earlier intervention on the target is strictly older. */
  predicate AllOlder(h: History, t: Target, at: int) {
    h.Then? ==> AllOlder(h.before, t, at) && (h.last.target == t ==> h.last.at < at)
  }

  /* ---------- guards ---------- */

  function TargetGuard(r: Repository, i: Intervention): Option<Code> {
    var m := i.target.mission;
    match i.target.kind
    case OnMission => if i.target.id != m then Some(OutputContract) else None
    case OnAssignment =>
      if i.target.id !in r.assignments || r.assignments[i.target.id].0 != m then Some(MissionError) else None
    case OnProposal =>
      if i.target.id in r.staged && r.staged[i.target.id] == m then None
      else if i.target.id in r.settled && r.settled[i.target.id] == m then Some(DecisionValidation)
      else Some(MissionError)
    case OnRisk => if m !in r.risks || i.target.id !in r.risks[m] then Some(MissionError) else None
    case OnEscalation =>
      if i.target.id !in r.escalations || r.escalations[i.target.id].mission != m then Some(MissionError) else None
    case OnTask =>
      if !(exists a :: a in r.assignments && r.assignments[a] == (m, i.target.id)) then Some(MissionError)
      else if i.kind !in CONTROLS then None
      else
        var latest := Latest(r.history, i.target, CONTROLS);
        if latest == Some(Stop) || (i.kind == Resume && latest != Some(Suspend))
          || (i.kind == Suspend && latest == Some(Suspend))
        then Some(MissionError) else None
  }

  function SequenceGuard(r: Repository, i: Intervention): Option<Code> {
    if !AllOlder(r.history, i.target, i.at) then Some(RevisionMismatch) else SettlementGuard(r, i)
  }

  /** What earlier dispositions, acceptances and reassignments of the target leave room for. */
  function SettlementGuard(r: Repository, i: Intervention): Option<Code> {
    if i.kind in DISPOSITIONS && Kinds(r.history, i.target, DISPOSITIONS) != [] then Some(DuplicateResult)
    else if i.kind == AcceptRisk && Kinds(r.history, i.target, {AcceptRisk}) != [] then Some(DuplicateResult)
    else
      var latest := Latest(r.history, i.target, REASSIGNMENTS);
      if (i.kind == RequestReassignment && latest == Some(RequestReassignment))
         || (i.kind == ConfirmReassignment && latest != Some(RequestReassignment))
      then Some(MissionError) else None
  }

  function EscalationGuard(r: Repository, i: Intervention): Option<Code> {
    if i.escalation == None then None
    else
      var e := i.escalation.value;
      if e !in r.escalations || r.escalations[e].mission != i.target.mission then Some(MissionError)
      else if r.escalations[e].answer != None then Some(MissionError)
      else if i.option == None || i.option.value !in r.escalations[e].options then Some(MissionError)
      else None
  }

  predicate Terminal(s: MissionState) { s in {Completed, MissionFailed, Cancelled} }

  function TransitionGuard(m: Mission, i: Intervention): Option<Code> {
    if i.target.kind != OnMission || i.resulting == None then None
    else if Terminal(m.state) then Some(MissionError)
    else if i.kind == Resume && m.state !in {Paused, Blocked} then Some(MissionError)
    else None
  }

  function FirstCode(a: Option<Code>, b: Option<Code>): Option<Code> { if a.Some? then a else b }

  /** `apply_intervention`; `channel` is the verdict on the conversation. */
  function Apply(r: Repository, i: Intervention, expected: int, channel: bool): Result<Repository> {
    if !i.settlement then Refused(VersionError)
    else if Has(r.history, i.id) then (if Stored(r.history, i.id) == i then Ok(r) else Refused(DuplicateResult))
    else if i.target.mission !in r.missions then Refused(MissionError)
    else
      var m := r.missions[i.target.mission];
      if m.revision != expected then Refused(RevisionMismatch)
      else if !channel then Refused(MissionError)
      else
        var refusal := FirstCode(FirstCode(TargetGuard(r, i), SequenceGuard(r, i)),
                                 FirstCode(EscalationGuard(r, i), TransitionGuard(m, i)));
        if refusal.Some? then Refused(refusal.value)
        else
          var state := if i.target.kind == OnMission && i.resulting.Some? then i.resulting.value else m.state;
          Ok(r.(missions := r.missions[i.target.mission := Mission(state, m.revision + 1)],
                history := Then(r.history, i),
                escalations := if i.escalation == None then r.escalations
                               else r.escalations[i.escalation.value :=
                                 r.escalations[i.escalation.value].(answer := Some(i.id))]))
  }

  /* ---------- last by time is last applied ---------- */

  /** Times strictly increase along the interventions on one target. */
  predicate Increasing(h: History, t: Target) {
    h.Then? ==> Increasing(h.before, t) && (h.last.target == t ==> AllOlder(h.before, t, h.last.at))
  }

  lemma {:induction false} InsertOlder(h: History, i: Intervention, t: Target, at: int)
    ensures AllOlder(Insert(h, i), t, at) <==> AllOlder(h, t, at) && (i.target == t ==> i.at < at)
  {
    if h.Then? && h.last.at > i.at { InsertOlder(h.before, i, t, at); }
  }

  lemma {:induction false} ByTimeOlder(h: History, t: Target, at: int)
    ensures AllOlder(ByTime(h), t, at) <==> AllOlder(h, t, at)
  {
    if h.Then? {
      ByTimeOlder(h.before, t, at);
      InsertOlder(ByTime(h.before), h.last, t, at);
    }
  }

  /** A row newer than all of its target goes, as far as the target is concerned, to the end. */
  lemma {:induction false} InsertKinds(h: History, i: Intervention, t: Target, kinds: set<Kind>)
    requires i.target == t ==> AllOlder(h, t, i.at)
    ensures Kinds(Insert(h, i), t, kinds) == Kinds(h, t, kinds) + if Matches(i, t, kinds) then [i.kind] else []
  {
    if h.Then? && h.last.at > i.at { InsertKinds(h.before, i, t, kinds); }
  }

  lemma {:induction false} ByTimeKinds(h: History, t: Target, kinds: set<Kind>)
    requires Increasing(h, t)
    ensures Kinds(ByTime(h), t, kinds) == Kinds(h, t, kinds)
  {
    if h.Then? {
      ByTimeKinds(h.before, t, kinds);
      if h.last.target == t { ByTimeOlder(h.before, t, h.last.at); }
      InsertKinds(ByTime(h.before), h.last, t, kinds);
    }
  }

  /* ---------- the language of histories ---------- */

  function Repeat(a: Kind, b: Kind, n: nat): seq<Kind> {
    if n == 0 then [] else Repeat(a, b, n - 1) + [a, b]
  }

  /** (suspend resume)* suspend? stop? */
  ghost predicate ControlLanguage(ks: seq<Kind>) {
    exists n: nat, tail: seq<Kind> :: ControlWord(ks, n, tail)
  }

  predicate ControlWord(ks: seq<Kind>, n: nat, tail: seq<Kind>) {
    ks == Repeat(Suspend, Resume, n) + tail
      && (tail == [] || tail == [Suspend] || tail == [Stop] || tail == [Suspend, Stop])
  }

  /** (request confirm)* request? */
  ghost predicate ReassignmentLanguage(ks: seq<Kind>) {
    exists n: nat, tail: seq<Kind> :: ReassignmentWord(ks, n, tail)
  }

  predicate ReassignmentWord(ks: seq<Kind>, n: nat, tail: seq<Kind>) {
    ks == Repeat(RequestReassignment, ConfirmReassignment, n) + tail && (tail == [] || tail == [RequestReassignment])
  }
}
