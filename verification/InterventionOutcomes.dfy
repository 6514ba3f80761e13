/** Which interventions a reachable repository admits, and what each of them changes. */
module InterventionOutcomes {
  import opened Outcomes
  import opened Interventions
  import opened InterventionRuns

  /* ---------- what a new intervention needs ---------- */

  /** What the intervention is about exists, in its mission. */
  predicate TargetIsThere(r: Repository, i: Intervention) {
    var m, id := i.target.mission, i.target.id;
    match i.target.kind
    case OnMission => id == m
    case OnTask => exists a :: a in r.assignments && r.assignments[a].0 == m && r.assignments[a].1 == id
    case OnAssignment => id in r.assignments && r.assignments[id].0 == m
    case OnProposal => id in r.staged && r.staged[id] == m
    case OnRisk => m in r.risks && id in r.risks[m]
    case OnEscalation => id in r.escalations && r.escalations[id].mission == m
  }

  /** It is later than everything recorded on its target. */
  ghost predicate IsNewest(h: History, i: Intervention) {
    forall id :: Has(h, id) && Stored(h, id).target == i.target ==> Stored(h, id).at < i.at
  }

  /** The target's history with it is still a word of its language, and nothing is settled or accepted twice. */
  ghost predicate FitsHistory(h: History, i: Intervention) {
    && (i.target.kind == OnTask && i.kind in {Suspend, Resume, Stop} ==>
          ControlLanguage(Kinds(h, i.target, {Suspend, Resume, Stop}) + [i.kind]))
    && (i.kind in {RequestReassignment, ConfirmReassignment} ==>
          ReassignmentLanguage(Kinds(h, i.target, {RequestReassignment, ConfirmReassignment}) + [i.kind]))
    && (i.kind in {AcceptProposal, RejectProposal} ==> Kinds(h, i.target, {AcceptProposal, RejectProposal}) == [])
    && (i.kind == AcceptRisk ==> Kinds(h, i.target, {AcceptRisk}) == [])
  }

  /** An answer chooses one of the options of an escalation of the same mission that has none yet. */
  predicate AnswersOpenEscalation(r: Repository, i: Intervention) {
    i.kind == AnswerEscalation ==>
      && i.target.id in r.escalations && r.escalations[i.target.id].mission == i.target.mission
      && r.escalations[i.target.id].answer == None
      && i.option.Some? && i.option.value in r.escalations[i.target.id].options
  }

  /** A control of the mission itself finds it unfinished, and a resumption finds it paused or blocked. */
  predicate MissionAllows(state: MissionState, i: Intervention) {
    i.target.kind == OnMission && i.kind in {Suspend, Resume, Stop} ==>
      && state !in {Completed, MissionFailed, Cancelled}
      && (i.kind == Resume ==> state in {Paused, Blocked})
  }

  lemma {:induction false} NewestIsAllOlder(h: History, i: Intervention)
    requires UniqueIds(h)
    ensures AllOlder(h, i.target, i.at) <==> IsNewest(h, i)
  {
    if h.Then? {
      NewestIsAllOlder(h.before, i);
      if IsNewest(h, i) {
        assert Has(h, h.last.id);
        forall id | Has(h.before, id) && Stored(h.before, id).target == i.target
          ensures Stored(h.before, id).at < i.at
        {
          assert Has(h, id) && Stored(h, id) == Stored(h.before, id);
        }
      }
      if AllOlder(h, i.target, i.at) {
        forall id | Has(h, id) && Stored(h, id).target == i.target ensures Stored(h, id).at < i.at {
          if id != h.last.id { assert Has(h.before, id); }
        }
      }
    }
  }

  lemma ControlledNext(ks: seq<Kind>, k: Kind)
    requires Controlled(ks)
    ensures Controlled(ks + [k]) <==> ControlAfter(Previous(ks, |ks|), k)
  {
    if ControlAfter(Previous(ks, |ks|), k) { ControlledExtends(ks, k); }
    if Controlled(ks + [k]) {
      assert ControlAfter(Previous(ks + [k], |ks|), (ks + [k])[|ks|]);
      assert Previous(ks + [k], |ks|) == Previous(ks, |ks|);
    }
  }

  lemma AlternatingNext(ks: seq<Kind>, k: Kind)
    requires Alternating(ks)
    ensures Alternating(ks + [k]) <==> ReassignmentAfter(Previous(ks, |ks|), k)
  {
    if ReassignmentAfter(Previous(ks, |ks|), k) { AlternatingExtends(ks, k); }
    if Alternating(ks + [k]) {
      assert ReassignmentAfter(Previous(ks + [k], |ks|), (ks + [k])[|ks|]);
      assert Previous(ks + [k], |ks|) == Previous(ks, |ks|);
    }
  }

  lemma TargetGuardExactly(r: Repository, i: Intervention)
    requires TargetInv(r.history, i.target)
    ensures TargetGuard(r, i) == None <==>
            && TargetIsThere(r, i)
            && (i.target.kind == OnTask && i.kind in {Suspend, Resume, Stop} ==>
                  ControlLanguage(Kinds(r.history, i.target, {Suspend, Resume, Stop}) + [i.kind]))
  {
    if i.target.kind == OnTask {
      var ks := Kinds(r.history, i.target, CONTROLS);
      LatestIsLastApplied(r.history, i.target, CONTROLS);
      ControlledNext(ks, i.kind);
      ControlLanguageExactly(ks + [i.kind]);
      if a :| a in r.assignments && r.assignments[a].0 == i.target.mission && r.assignments[a].1 == i.target.id {
        assert r.assignments[a] == (i.target.mission, i.target.id);
      }
    }
  }

  lemma SettlementGuardExactly(r: Repository, i: Intervention)
    requires TargetInv(r.history, i.target)
    ensures SettlementGuard(r, i) == None <==>
            && (i.kind in {RequestReassignment, ConfirmReassignment} ==>
                  ReassignmentLanguage(
                    Kinds(r.history, i.target, {RequestReassignment, ConfirmReassignment}) + [i.kind]))
            && (i.kind in {AcceptProposal, RejectProposal} ==>
                  Kinds(r.history, i.target, {AcceptProposal, RejectProposal}) == [])
            && (i.kind == AcceptRisk ==> Kinds(r.history, i.target, {AcceptRisk}) == [])
  {
    var ks := Kinds(r.history, i.target, REASSIGNMENTS);
    LatestIsLastApplied(r.history, i.target, REASSIGNMENTS);
    AlternatingNext(ks, i.kind);
    ReassignmentLanguageExactly(ks + [i.kind]);
  }

  /** A new intervention is admitted exactly when its mission exists at the revision that the caller saw, its
      conversation is open to it, its target is there and has nothing later, and history, escalation and mission allow
      it. */
  lemma AdmittedExactly(u: Trace, i: Intervention, expected: int, channel: bool)
    requires Valid(i) && i.settlement && !Has(Run(u).history, i.id)
    ensures var r := Run(u);
            Apply(r, i, expected, channel).Ok? <==>
            && i.target.mission in r.missions && r.missions[i.target.mission].revision == expected && channel
            && TargetIsThere(r, i) && IsNewest(r.history, i) && FitsHistory(r.history, i)
            && AnswersOpenEscalation(r, i) && MissionAllows(r.missions[i.target.mission].state, i)
  {
    var r := Run(u);
    RunTargets(u, i.target);
    InterventionsAreDistinct(u);
    NewestIsAllOlder(r.history, i);
    TargetGuardExactly(r, i);
    SettlementGuardExactly(r, i);
  }

  /** The proposal or the risk is settled already. */
  predicate SettledBefore(h: History, i: Intervention) {
    || (i.kind in {AcceptProposal, RejectProposal} && Kinds(h, i.target, {AcceptProposal, RejectProposal}) != [])
    || (i.kind == AcceptRisk && Kinds(h, i.target, {AcceptRisk}) != [])
  }

  ghost predicate TaskMayTake(h: History, i: Intervention) {
    i.target.kind == OnTask && i.kind in {Suspend, Resume, Stop} ==>
      ControlLanguage(Kinds(h, i.target, {Suspend, Resume, Stop}) + [i.kind])
  }

  /** The code for an intervention whose target is not there. */
  function AbsentCode(r: Repository, t: Target): Code {
    if t.kind == OnMission then OutputContract
    else if t.kind == OnProposal && t.id in r.settled && r.settled[t.id] == t.mission then DecisionValidation
    else MissionError
  }

  /** A new intervention on a known mission at the revision that the caller saw is refused with the code of what is
      wrong first: its conversation, its target, the target's controls, its time, a second settlement, and the rest. */
  lemma RefusedExactly(u: Trace, i: Intervention, channel: bool)
    requires Valid(i) && i.settlement && !Has(Run(u).history, i.id) && i.target.mission in Run(u).missions
    ensures var r := Run(u);
            var answer := Apply(r, i, r.missions[i.target.mission].revision, channel);
            answer.Refused? ==>
              answer.code == if !channel then MissionError
                             else if !TargetIsThere(r, i) then AbsentCode(r, i.target)
                             else if !TaskMayTake(r.history, i) then MissionError
                             else if !IsNewest(r.history, i) then RevisionMismatch
                             else if SettledBefore(r.history, i) then DuplicateResult
                             else MissionError
  {
    var r := Run(u);
    RunTargets(u, i.target);
    InterventionsAreDistinct(u);
    NewestIsAllOlder(r.history, i);
    TargetGuardExactly(r, i);
  }

  /* ---------- what it changes ---------- */

  /** The state that an intervention gives its mission. */
  predicate MissionBecomes(state: MissionState, i: Intervention, state': MissionState) {
    if i.target.kind == OnMission && i.kind == Suspend then state' == Paused
    else if i.target.kind == OnMission && i.kind == Resume then state' == Active
    else if i.target.kind == OnMission && i.kind == Stop then state' == Cancelled
    else state' == state
  }

  /** An admitted intervention is recorded last, takes its mission one revision on and, if it controls the mission,
      into the state it asks for; an answer is noted on its escalation. Nothing else changes. */
  lemma AppliedExactly(r: Repository, i: Intervention, expected: int, channel: bool)
    requires Valid(i) && !Has(r.history, i.id) && Apply(r, i, expected, channel).Ok?
    ensures var r', m := Apply(r, i, expected, channel).value, i.target.mission;
            && r'.history == Then(r.history, i)
            && m in r.missions && m in r'.missions && r'.missions == r.missions[m := r'.missions[m]]
            && r'.missions[m].revision == r.missions[m].revision + 1
            && MissionBecomes(r.missions[m].state, i, r'.missions[m].state)
            && (i.kind != AnswerEscalation ==> r'.escalations == r.escalations)
            && (i.kind == AnswerEscalation ==>
                  && i.target.id in r.escalations && i.target.id in r'.escalations
                  && r'.escalations == r.escalations[i.target.id := r'.escalations[i.target.id]]
                  && r'.escalations[i.target.id] == r.escalations[i.target.id].(answer := Some(i.id)))
            && r' == r.(history := r'.history, missions := r'.missions, escalations := r'.escalations)
  {}

  /** Before any guard: a record of another contract, a used identity, an unknown mission and a stale revision have
      codes of their own. */
  lemma EarlyRefusals(r: Repository, i: Intervention, expected: int, channel: bool)
    ensures var answer, m := Apply(r, i, expected, channel), i.target.mission;
            && (!i.settlement ==> answer == Refused(VersionError))
            && (i.settlement && Has(r.history, i.id) ==>
                  answer == if Stored(r.history, i.id) == i then Ok(r) else Refused(DuplicateResult))
            && (i.settlement && !Has(r.history, i.id) && m !in r.missions ==> answer == Refused(MissionError))
            && (i.settlement && !Has(r.history, i.id) && m in r.missions && r.missions[m].revision != expected ==>
                  answer == Refused(RevisionMismatch))
  {}

  /* ---------- what a recorded one says ---------- */

  /** The kinds of intervention that each kind of target takes, and what goes with them. */
  predicate SaysWhatItDoes(i: Intervention) {
    && (match i.kind
        case AnswerEscalation => i.target.kind == OnEscalation
        case AcceptProposal => i.target.kind == OnProposal
        case RejectProposal => i.target.kind == OnProposal
        case AcceptRisk => i.target.kind == OnRisk
        case RequestReassignment => i.target.kind in {OnTask, OnAssignment}
        case ConfirmReassignment => i.target.kind in {OnTask, OnAssignment}
        case Suspend => i.target.kind in {OnMission, OnTask}
        case Resume => i.target.kind in {OnMission, OnTask}
        case Stop => i.target.kind in {OnMission, OnTask}
        case Comment => true)
    && i.escalation == (if i.kind == AnswerEscalation then Some(i.target.id) else None)
    && (i.option.Some? <==> i.kind == AnswerEscalation)
    && (i.resulting.Some? <==> i.target.kind == OnMission && i.kind in {Suspend, Resume, Stop})
    && (i.resulting.Some? && i.kind == Suspend ==> i.resulting.value == Paused)
    && (i.resulting.Some? && i.kind == Resume ==> i.resulting.value == Active)
    && (i.resulting.Some? && i.kind == Stop ==> i.resulting.value == Cancelled)
  }

  lemma ValidSaysWhatItDoes(i: Intervention)
    requires Valid(i)
    ensures SaysWhatItDoes(i)
  {}

  /** What holds of a recorded intervention. */
  predicate RecordedWell(r: Repository, i: Intervention, id: Id) {
    i.id == id && i.settlement && SaysWhatItDoes(i) && i.target.mission in r.missions
  }

  lemma StepRecordsWell(r: Repository, e: Event, id: Id)
    requires Has(Step(r, e).history, id) && !Has(r.history, id)
    ensures RecordedWell(Step(r, e), Stored(Step(r, e).history, id), id)
  {
    StepHistory(r, e);
    ValidSaysWhatItDoes(e.intervention);
  }

  lemma FactsKeepMissions(r: Repository, f: Fact)
    ensures r.missions.Keys <= Record(r, f).missions.Keys
  {}

  lemma StepKeepsMissions(r: Repository, e: Event)
    ensures r.missions.Keys <= Step(r, e).missions.Keys
  {
    if e.Recorded? { FactsKeepMissions(r, e.fact); }
  }

  lemma StepKeepsStored(r: Repository, e: Event, id: Id)
    requires Has(r.history, id)
    ensures Has(Step(r, e).history, id) && Stored(Step(r, e).history, id) == Stored(r.history, id)
  {
    StepHistory(r, e);
  }

  /** In every run each recorded intervention is of the settlement contract and of a kind that fits its target, and
      its mission is known. */
  lemma {:induction false} RecordedSayWhatTheyDo(u: Trace, id: Id)
    requires Has(Run(u).history, id)
    ensures RecordedWell(Run(u), Stored(Run(u).history, id), id)
  {
    if Has(Run(u.before).history, id) {
      RecordedSayWhatTheyDo(u.before, id);
      StepKeepsMissions(Run(u.before), u.event);
      StepKeepsStored(Run(u.before), u.event, id);
    } else {
      StepRecordsWell(Run(u.before), u.event, id);
    }
  }
}
