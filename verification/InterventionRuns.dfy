/** Whole runs of the conversation repository: interventions interleaved with the facts that the
    other repositories record about the same missions. */
module InterventionRuns {
  import opened Outcomes
  import opened Interventions

  datatype Fact =
    | MissionCreated(mission: Id)
    | MissionMoved(mission: Id, to: MissionState)
    | EscalationOpened(escalation: Id, mission: Id, options: set<string>)
    | TaskAssigned(assignment: Id, mission: Id, task: Id)
    | ProposalStaged(decision: Id, mission: Id)
    | DecisionSettled(decision: Id, mission: Id)
    | RisksFound(mission: Id, statements: set<Id>)

  datatype Event = Intervene(intervention: Intervention, expected: int, channel: bool) | Recorded(fact: Fact)

  datatype Trace = Start | After(before: Trace, event: Event)

  /** The mission service's own writes: lifecycle transitions, new Briefs, and writes that keep the state. */
  predicate MayMove(s: MissionState, to: MissionState) {
    to == s || (to == Clarifying && !Terminal(s)) || to in
      match s
      case Proposed => {Clarifying, Cancelled}
      case Clarifying => {Planned, Blocked, Cancelled}
      case Planned => {Active, Paused, Blocked, Cancelled}
      case Active => {Paused, Blocked, Evaluating, MissionFailed, Cancelled}
      case Paused => {Active, Blocked, Cancelled}
      case Blocked => {Active, Paused, MissionFailed, Cancelled}
      case Evaluating => {Remediating, Completed, MissionFailed, Paused}
      case Remediating => {Active, Evaluating, MissionFailed, Cancelled}
      case _ => {}
  }

  predicate Moves(r: Repository, f: Fact) {
    f.MissionMoved? && f.mission in r.missions && MayMove(r.missions[f.mission].state, f.to)
  }

  function Record(r: Repository, f: Fact): Repository {
    match f
    case MissionCreated(m) => if m in r.missions then r else r.(missions := r.missions[m := Mission(Proposed, 1)])
    case MissionMoved(m, to) =>
      if Moves(r, f) then r.(missions := r.missions[m := Mission(to, r.missions[m].revision + 1)]) else r
    case EscalationOpened(e, m, options) =>
      if e in r.escalations || m !in r.missions then r
      else r.(escalations := r.escalations[e := Escalation(m, options, None)])
    case TaskAssigned(a, m, task) => if a in r.assignments then r else r.(assignments := r.assignments[a := (m, task)])
    case ProposalStaged(d, m) => if d in r.staged || d in r.settled then r else r.(staged := r.staged[d := m])
    case DecisionSettled(d, m) => if d in r.staged || d in r.settled then r else r.(settled := r.settled[d := m])
    case RisksFound(m, statements) => r.(risks := r.risks[m := statements])
  }

  /** A refusal rolls back; a record that fails its own validator never reaches the repository. */
  function Step(r: Repository, e: Event): Repository {
    match e
    case Recorded(f) => Record(r, f)
    case Intervene(i, expected, channel) =>
      if !Valid(i) then r else match Apply(r, i, expected, channel) case Ok(s) => s case Refused(_) => r
  }

  const Empty := Repository(map[], Nothing, map[], map[], map[], map[], map[])

  function Run(t: Trace): Repository { if t == Start then Empty else Step(Run(t.before), t.event) }

  predicate Prefix(t: Trace, u: Trace) { t == u || (u.After? && Prefix(t, u.before)) }

  /** What a step adds to the history. */
  predicate Adds(r: Repository, e: Event) { e.Intervene? && Step(r, e).history == Then(r.history, e.intervention) }

  lemma StepHistory(r: Repository, e: Event)
    ensures Adds(r, e) || Step(r, e).history == r.history
    ensures Adds(r, e) ==> Valid(e.intervention) && !Has(r.history, e.intervention.id)
                           && e.intervention.target.mission in r.missions
                           && TargetGuard(r, e.intervention) == None && SequenceGuard(r, e.intervention) == None
                           && EscalationGuard(r, e.intervention) == None
                           && TransitionGuard(r.missions[e.intervention.target.mission], e.intervention) == None
    ensures !Adds(r, e) && e.Intervene? ==> Step(r, e) == r
  {
    if e.Intervene? {
      NotItsOwnTail(r.history, e.intervention);
    }
  }

  function Rows(h: History): nat { if h == Nothing then 0 else 1 + Rows(h.before) }

  lemma NotItsOwnTail(h: History, i: Intervention)
    ensures h != Then(h, i)
  {
    assert Rows(Then(h, i)) == 1 + Rows(h);
  }

  /* ---------- the languages ---------- */

  function Previous(ks: seq<Kind>, j: nat): Option<Kind>
    requires j <= |ks|
  {
    if j == 0 then None else Some(ks[j - 1])
  }

  /** What the task guard lets follow the last control. */
  predicate ControlAfter(last: Option<Kind>, k: Kind) {
    && k in CONTROLS
    && last != Some(Stop)
    && (k == Resume ==> last == Some(Suspend))
    && (k == Suspend ==> last != Some(Suspend))
  }

  predicate ReassignmentAfter(last: Option<Kind>, k: Kind) {
    && k in REASSIGNMENTS
    && (k == RequestReassignment ==> last != Some(RequestReassignment))
    && (k == ConfirmReassignment ==> last == Some(RequestReassignment))
  }

  predicate Controlled(ks: seq<Kind>) { forall j :: 0 <= j < |ks| ==> ControlAfter(Previous(ks, j), ks[j]) }

  predicate Alternating(ks: seq<Kind>) { forall j :: 0 <= j < |ks| ==> ReassignmentAfter(Previous(ks, j), ks[j]) }

  lemma {:induction false} RepeatAt(a: Kind, b: Kind, n: nat)
    ensures |Repeat(a, b, n)| == 2 * n
    ensures forall j :: 0 <= j < 2 * n ==> Repeat(a, b, n)[j] == if j % 2 == 0 then a else b
  {
    if n > 0 { RepeatAt(a, b, n - 1); }
  }

  lemma ControlWordExtends(ks: seq<Kind>, k: Kind)
    requires ControlLanguage(ks) && ControlAfter(Previous(ks, |ks|), k)
    ensures ControlLanguage(ks + [k])
  {
    var n: nat, tail: seq<Kind> :| ControlWord(ks, n, tail);
    if tail == [] {
      RepeatAt(Suspend, Resume, n);
      assert ControlWord(ks + [k], n, [k]);
    } else if k == Resume {
      assert ControlWord(ks + [k], n + 1, []);
    } else {
      assert ControlWord(ks + [k], n, [Suspend, Stop]);
    }
  }

  lemma ShorterKeepsPrevious(ks: seq<Kind>)
    requires ks != []
    ensures forall j :: 0 <= j < |ks| ==> Previous(ks[..|ks| - 1], j) == Previous(ks, j)
  {}

  lemma {:induction false} ControlledIsLanguage(ks: seq<Kind>)
    requires Controlled(ks)
    ensures ControlLanguage(ks)
  {
    if ks == [] {
      assert ControlWord(ks, 0, []);
    } else {
      var before := ks[..|ks| - 1];
      ShorterKeepsPrevious(ks);
      ControlledIsLanguage(before);
      ControlWordExtends(before, ks[|ks| - 1]);
      assert ks == before + [ks[|ks| - 1]];
    }
  }

  lemma LanguageIsControlled(ks: seq<Kind>)
    requires ControlLanguage(ks)
    ensures Controlled(ks)
  {
    var n: nat, tail: seq<Kind> :| ControlWord(ks, n, tail);
    RepeatAt(Suspend, Resume, n);
    forall j | 0 <= j < |ks| ensures ControlAfter(Previous(ks, j), ks[j]) {
      if j < 2 * n { assert ks[j] == if j % 2 == 0 then Suspend else Resume; }
    }
  }

  /** The guard admits exactly the words of (suspend resume)* suspend? stop?. */
  lemma ControlLanguageExactly(ks: seq<Kind>)
    ensures Controlled(ks) <==> ControlLanguage(ks)
  {
    if Controlled(ks) { ControlledIsLanguage(ks); }
    if ControlLanguage(ks) { LanguageIsControlled(ks); }
  }

  lemma ReassignmentWordExtends(ks: seq<Kind>, k: Kind)
    requires ReassignmentLanguage(ks) && ReassignmentAfter(Previous(ks, |ks|), k)
    ensures ReassignmentLanguage(ks + [k])
  {
    var n: nat, tail: seq<Kind> :| ReassignmentWord(ks, n, tail);
    if tail == [] {
      RepeatAt(RequestReassignment, ConfirmReassignment, n);
      assert ReassignmentWord(ks + [k], n, [k]);
    } else {
      assert ReassignmentWord(ks + [k], n + 1, []);
    }
  }

  lemma {:induction false} AlternatingIsLanguage(ks: seq<Kind>)
    requires Alternating(ks)
    ensures ReassignmentLanguage(ks)
  {
    if ks == [] {
      assert ReassignmentWord(ks, 0, []);
    } else {
      var before := ks[..|ks| - 1];
      ShorterKeepsPrevious(ks);
      AlternatingIsLanguage(before);
      ReassignmentWordExtends(before, ks[|ks| - 1]);
      assert ks == before + [ks[|ks| - 1]];
    }
  }

  lemma WordAlternates(ks: seq<Kind>, n: nat, tail: seq<Kind>)
    requires ReassignmentWord(ks, n, tail)
    ensures Alternating(ks)
  {
    RepeatAt(RequestReassignment, ConfirmReassignment, n);
    forall j | 0 <= j < |ks| ensures ReassignmentAfter(Previous(ks, j), ks[j]) {
      if j < 2 * n { assert ks[j] == if j % 2 == 0 then RequestReassignment else ConfirmReassignment; }
    }
  }

  /** The guard admits exactly the words of (request confirm)* request?. */
  lemma ReassignmentLanguageExactly(ks: seq<Kind>)
    ensures Alternating(ks) <==> ReassignmentLanguage(ks)
  {
    if Alternating(ks) { AlternatingIsLanguage(ks); }
    if n: nat, tail: seq<Kind> :| ReassignmentWord(ks, n, tail) { WordAlternates(ks, n, tail); }
  }

  /* ---------- every target, in every run ---------- */

  predicate TargetInv(h: History, t: Target) {
    && Increasing(h, t)
    && (t.kind == OnTask ==> Controlled(Kinds(h, t, CONTROLS)))
    && Alternating(Kinds(h, t, REASSIGNMENTS))
    && |Kinds(h, t, DISPOSITIONS)| <= 1
    && |Kinds(h, t, {AcceptRisk})| <= 1
  }

  lemma ControlledExtends(ks: seq<Kind>, k: Kind)
    requires Controlled(ks) && ControlAfter(Previous(ks, |ks|), k)
    ensures Controlled(ks + [k])
  {
    forall j | 0 <= j < |ks + [k]| ensures ControlAfter(Previous(ks + [k], j), (ks + [k])[j]) {
      if j < |ks| { assert ControlAfter(Previous(ks, j), ks[j]); }
    }
  }

  lemma AlternatingExtends(ks: seq<Kind>, k: Kind)
    requires Alternating(ks) && ReassignmentAfter(Previous(ks, |ks|), k)
    ensures Alternating(ks + [k])
  {
    forall j | 0 <= j < |ks + [k]| ensures ReassignmentAfter(Previous(ks + [k], j), (ks + [k])[j]) {
      if j < |ks| { assert ReassignmentAfter(Previous(ks, j), ks[j]); }
    }
  }

  lemma LatestIsLastApplied(h: History, t: Target, kinds: set<Kind>)
    requires Increasing(h, t)
    ensures Latest(h, t, kinds) == Previous(Kinds(h, t, kinds), |Kinds(h, t, kinds)|)
  {
    ByTimeKinds(h, t, kinds);
  }

  lemma ControlsKeep(r: Repository, i: Intervention)
    requires TargetInv(r.history, i.target) && i.target.kind == OnTask && TargetGuard(r, i) == None
    ensures Controlled(Kinds(Then(r.history, i), i.target, CONTROLS))
  {
    if i.kind in CONTROLS {
      LatestIsLastApplied(r.history, i.target, CONTROLS);
      ControlledExtends(Kinds(r.history, i.target, CONTROLS), i.kind);
    } else {
      assert Kinds(Then(r.history, i), i.target, CONTROLS) == Kinds(r.history, i.target, CONTROLS);
    }
  }

  lemma ReassignmentsKeep(r: Repository, i: Intervention)
    requires TargetInv(r.history, i.target) && SequenceGuard(r, i) == None
    ensures Alternating(Kinds(Then(r.history, i), i.target, REASSIGNMENTS))
  {
    if i.kind in REASSIGNMENTS {
      LatestIsLastApplied(r.history, i.target, REASSIGNMENTS);
      AlternatingExtends(Kinds(r.history, i.target, REASSIGNMENTS), i.kind);
    } else {
      assert Kinds(Then(r.history, i), i.target, REASSIGNMENTS) == Kinds(r.history, i.target, REASSIGNMENTS);
    }
  }

  lemma OtherTargetsKeep(h: History, i: Intervention, t: Target, kinds: set<Kind>)
    requires i.target != t
    ensures Kinds(Then(h, i), t, kinds) == Kinds(h, t, kinds)
  {}

  lemma TargetKeeps(r: Repository, i: Intervention, t: Target)
    requires TargetInv(r.history, t) && TargetGuard(r, i) == None && SequenceGuard(r, i) == None
    ensures TargetInv(Then(r.history, i), t)
  {
    if i.target == t {
      ReassignmentsKeep(r, i);
      if t.kind == OnTask { ControlsKeep(r, i); }
    } else {
      OtherTargetsKeep(r.history, i, t, CONTROLS);
      OtherTargetsKeep(r.history, i, t, REASSIGNMENTS);
      OtherTargetsKeep(r.history, i, t, DISPOSITIONS);
      OtherTargetsKeep(r.history, i, t, {AcceptRisk});
    }
  }

  lemma {:induction false} RunTargets(u: Trace, t: Target)
    ensures TargetInv(Run(u).history, t)
  {
    if u.After? {
      RunTargets(u.before, t);
      StepHistory(Run(u.before), u.event);
      if Adds(Run(u.before), u.event) { TargetKeeps(Run(u.before), u.event.intervention, t); }
    }
  }

  /** In every run, whatever the timestamps submitted: the histories of each target. */
  lemma HistoriesStayInTheirLanguages(u: Trace, t: Target)
    ensures t.kind == OnTask ==> ControlLanguage(Kinds(Run(u).history, t, CONTROLS))
    ensures ReassignmentLanguage(Kinds(Run(u).history, t, REASSIGNMENTS))
    ensures |Kinds(Run(u).history, t, DISPOSITIONS)| <= 1
    ensures |Kinds(Run(u).history, t, {AcceptRisk})| <= 1
    ensures forall kinds: set<Kind> :: Kinds(ByTime(Run(u).history), t, kinds) == Kinds(Run(u).history, t, kinds)
  {
    RunTargets(u, t);
    if t.kind == OnTask { ControlledIsLanguage(Kinds(Run(u).history, t, CONTROLS)); }
    AlternatingIsLanguage(Kinds(Run(u).history, t, REASSIGNMENTS));
    forall kinds: set<Kind> ensures Kinds(ByTime(Run(u).history), t, kinds) == Kinds(Run(u).history, t, kinds) {
      ByTimeKinds(Run(u).history, t, kinds);
    }
  }

  /* ---------- escalations ---------- */

  function Answers(h: History, e: Id): seq<Intervention> {
    if h == Nothing then [] else Answers(h.before, e) + if h.last.escalation == Some(e) then [h.last] else []
  }

  /** An escalation has at most one answer, recorded on its row, selecting one of its own options. */
  predicate AnsweredOnce(r: Repository, e: Id) {
    var answers := Answers(r.history, e);
    if e !in r.escalations || r.escalations[e].answer == None then answers == []
    else
      && |answers| == 1
      && r.escalations[e].answer == Some(answers[0].id)
      && answers[0].target.mission == r.escalations[e].mission
      && answers[0].option.Some?
      && answers[0].option.value in r.escalations[e].options
  }

  lemma {:induction false} EscalationsAreAnsweredOnce(u: Trace, e: Id)
    ensures AnsweredOnce(Run(u), e)
  {
    if u.After? {
      EscalationsAreAnsweredOnce(u.before, e);
      StepHistory(Run(u.before), u.event);
      StepAnswers(Run(u.before), u.event, e);
    }
  }

  lemma RecordAnswers(r: Repository, f: Fact, e: Id)
    requires AnsweredOnce(r, e)
    ensures AnsweredOnce(Record(r, f), e)
  {}

  lemma StepAnswers(r: Repository, event: Event, e: Id)
    requires AnsweredOnce(r, e)
    ensures AnsweredOnce(Step(r, event), e)
  {
    if event.Recorded? {
      RecordAnswers(r, event.fact, e);
    } else {
      StepHistory(r, event);
      if Adds(r, event) {
        var i := event.intervention;
        if i.escalation != Some(e) { assert Answers(Then(r.history, i), e) == Answers(r.history, e); }
      }
    }
  }

  /* ---------- missions ---------- */

  function AppliedTo(h: History, m: Id): nat {
    if h == Nothing then 0 else AppliedTo(h.before, m) + if h.last.target.mission == m then 1 else 0
  }

  function MovesOf(u: Trace, m: Id): nat {
    if u == Start then 0
    else MovesOf(u.before, m) + if MovesMission(Run(u.before), u.event, m) then 1 else 0
  }

  /** A mission's revision counts its interventions and the mission service's own writes. */
  predicate RevisionCounted(r: Repository, moves: nat, m: Id) {
    if m in r.missions then r.missions[m].revision == 1 + AppliedTo(r.history, m) + moves
    else AppliedTo(r.history, m) == 0 && moves == 0
  }

  predicate MovesMission(r: Repository, e: Event, m: Id) { e.Recorded? && Moves(r, e.fact) && e.fact.mission == m }

  lemma RecordRevision(r: Repository, f: Fact, moves: nat, m: Id)
    requires RevisionCounted(r, moves, m)
    ensures RevisionCounted(Record(r, f), moves + if Moves(r, f) && f.mission == m then 1 else 0, m)
  {}

  lemma InterventionRevision(r: Repository, e: Event, moves: nat, m: Id)
    requires RevisionCounted(r, moves, m) && e.Intervene?
    ensures RevisionCounted(Step(r, e), moves, m)
  {
    StepHistory(r, e);
  }

  lemma {:induction false} RevisionsCountInterventions(u: Trace, m: Id)
    ensures RevisionCounted(Run(u), MovesOf(u, m), m)
  {
    if u.After? {
      RevisionsCountInterventions(u.before, m);
      if u.event.Recorded? {
        RecordRevision(Run(u.before), u.event.fact, MovesOf(u.before, m), m);
      } else {
        InterventionRevision(Run(u.before), u.event, MovesOf(u.before, m), m);
      }
    }
  }

  predicate UniqueIds(h: History) { h.Then? ==> UniqueIds(h.before) && !Has(h.before, h.last.id) }

  lemma {:induction false} InterventionsAreDistinct(u: Trace)
    ensures UniqueIds(Run(u).history)
  {
    if u.After? {
      InterventionsAreDistinct(u.before);
      StepHistory(Run(u.before), u.event);
    }
  }

  lemma RecordTerminal(r: Repository, f: Fact, m: Id)
    requires m in r.missions
    ensures m in Record(r, f).missions
    ensures Terminal(r.missions[m].state) ==> Record(r, f).missions[m].state == r.missions[m].state
  {}

  lemma StepTerminal(r: Repository, e: Event, m: Id)
    requires m in r.missions
    ensures m in Step(r, e).missions
    ensures Terminal(r.missions[m].state) ==> Step(r, e).missions[m].state == r.missions[m].state
  {
    if e.Recorded? { RecordTerminal(r, e.fact, m); } else { StepHistory(r, e); }
  }

  /** A completed, failed or cancelled mission keeps that state in every continuation. */
  lemma {:induction false} TerminalMissionsStay(t: Trace, u: Trace, m: Id)
    requires Prefix(t, u) && m in Run(t).missions && Terminal(Run(t).missions[m].state)
    ensures m in Run(u).missions && Run(u).missions[m].state == Run(t).missions[m].state
  {
    if t != u {
      TerminalMissionsStay(t, u.before, m);
      StepTerminal(Run(u.before), u.event, m);
    }
  }

  predicate StopIsLast(ks: seq<Kind>) { forall j :: 0 <= j < |ks| - 1 ==> ks[j] != Stop }

  predicate StopsForGood(r: Repository, m: Id) {
    var ks := Kinds(r.history, Target(m, OnMission, m), CONTROLS);
    && StopIsLast(ks)
    && (Stop in ks ==> m in r.missions && Terminal(r.missions[m].state))
    && (m !in r.missions ==> ks == [])
  }

  lemma StepStops(r: Repository, e: Event, m: Id)
    requires StopsForGood(r, m)
    ensures StopsForGood(Step(r, e), m)
  {
    StepHistory(r, e);
    var t := Target(m, OnMission, m);
    if m in r.missions { StepTerminal(r, e, m); }
    if Adds(r, e) {
      var i := e.intervention;
      if !Matches(i, t, CONTROLS) { assert Kinds(Then(r.history, i), t, CONTROLS) == Kinds(r.history, t, CONTROLS); }
    }
  }

  /** A stopped mission is never suspended, resumed or stopped again. */
  lemma {:induction false} StoppedMissionsStayStopped(u: Trace, m: Id)
    ensures StopsForGood(Run(u), m)
  {
    if u.After? {
      StoppedMissionsStayStopped(u.before, m);
      StepStops(Run(u.before), u.event, m);
    }
  }

  /* ---------- idempotence ---------- */

  lemma {:induction false} StoredStays(t: Trace, u: Trace, id: Id)
    requires Prefix(t, u) && Has(Run(t).history, id)
    ensures Has(Run(u).history, id) && Stored(Run(u).history, id) == Stored(Run(t).history, id)
  {
    if t != u {
      StoredStays(t, u.before, id);
      StepHistory(Run(u.before), u.event);
    }
  }

  /** Once applied, the same record is answered without effect whatever revision the caller expects,
      and no other record can take its identity. */
  lemma AppliedOnce(t: Trace, u: Trace, i: Intervention, j: Intervention, expected: int, channel: bool)
    requires Prefix(t, u) && t.After? && Adds(Run(t.before), t.event) && t.event.intervention == i
    requires j.id == i.id && j.settlement
    ensures Apply(Run(u), j, expected, channel) == if j == i then Ok(Run(u)) else Refused(DuplicateResult)
  {
    StoredStays(t, u, i.id);
  }
}
