/** The conversation repository as an object: each call is one transaction over its tables. */
module ConversationRepository {
  import opened Outcomes
  import opened Listings
  import opened Interventions
  import D = Decisions

  predicate IsStaged(d: D.Decision) { d.structured && d.status == Some(D.Staged) }

  /** The missions of the staged decisions, and of the others. */
  function StagedOf(t: D.Table): map<Id, Id> { map k | k in t && IsStaged(t[k]) :: t[k].mission }

  function SettledOf(t: D.Table): map<Id, Id> { map k | k in t && !IsStaged(t[k]) :: t[k].mission }

  class SQLiteConversationRepository {
    var missions: map<Id, Mission>
    var interventions: History
    var escalations: map<Id, Escalation>
    var assignments: map<Id, (Id, Id)>
    var decisions: D.Table
    var risks: map<Id, set<Id>>

    function State(): Repository
      reads this
    {
      Repository(missions, interventions, escalations, assignments, StagedOf(decisions), SettledOf(decisions), risks)
    }

    method FindIntervention(id: Id) returns (row: Option<Intervention>)
      ensures row.Some? <==> Has(interventions, id)
      ensures row.Some? ==> row.value == Stored(interventions, id)
    {
      var left := interventions;
      while left.Then?
        invariant Has(interventions, id) <==> Has(left, id)
        invariant Has(left, id) ==> Stored(interventions, id) == Stored(left, id)
        decreases left
      {
        if left.last.id == id { return Some(left.last); }
        left := left.before;
      }
      return None;
    }

    /** The newest stored time on a target, as the maximum over the rows found. */
    method NewestOn(t: Target) returns (newest: Option<int>)
      ensures forall at: int :: AllOlder(interventions, t, at) <==> newest == None || newest.value < at
    {
      newest := None;
      var left := interventions;
      while left.Then?
        invariant forall at: int :: AllOlder(interventions, t, at)
                                    <==> AllOlder(left, t, at) && (newest == None || newest.value < at)
        decreases left
      {
        if left.last.target == t && (newest == None || newest.value < left.last.at) { newest := Some(left.last.at); }
        left := left.before;
      }
    }

    method ApplyIntervention(i: Intervention, expected: int, channel: bool) returns (refusal: Option<Code>)
      modifies this`missions, this`interventions, this`escalations
      ensures match Apply(old(State()), i, expected, channel)
              case Ok(next) => refusal == None && State() == next
              case Refused(code) => refusal == Some(code) && State() == old(State())
    {
      if !i.settlement { return Some(VersionError); }
      var existing := FindIntervention(i.id);
      if existing.Some? { return if existing.value == i then None else Some(DuplicateResult); }
      var m := i.target.mission;
      if m !in missions { return Some(MissionError); }
      var mission := missions[m];
      if mission.revision != expected { return Some(RevisionMismatch); }
      if !channel { return Some(MissionError); }
      var state := State();
      var problem := TargetGuard(state, i);
      if problem.Some? { return problem; }
      var newest := NewestOn(i.target);
      if newest.Some? && i.at <= newest.value { return Some(RevisionMismatch); }
      problem := SettlementGuard(state, i);
      if problem.Some? { return problem; }
      problem := EscalationGuard(state, i);
      if problem.Some? { return problem; }
      problem := TransitionGuard(mission, i);
      if problem.Some? { return problem; }
      if i.escalation.Some? {
        var e := i.escalation.value;
        escalations := escalations[e := escalations[e].(answer := Some(i.id))];
      }
      var next := if i.target.kind == OnMission && i.resulting.Some? then i.resulting.value else mission.state;
      missions := missions[m := Mission(next, mission.revision + 1)];
      interventions := Then(interventions, i);
      return None;
    }

    /** Refuses a settlement whose staged recommendation already has one. */
    method RequireDecisionLineage(d: D.Decision) returns (refusal: Option<Code>)
      ensures refusal == D.Lineage(decisions, d)
    {
      if !D.Settles(d) { return None; }
      if d.supersedes == None || d.supersedes.value !in decisions { return Some(DecisionValidation); }
      var prior := decisions[d.supersedes.value];
      if !IsStaged(prior) || !D.Preserves(prior, d) || !(D.Texts(prior.references) <= D.Texts(d.references)) {
        return Some(DecisionValidation);
      }
      var rows := Listing(decisions.Keys);
      var k := 0;
      while k < |rows|
        invariant 0 <= k <= |rows|
        invariant forall j :: 0 <= j < k ==>
                  !(&& decisions[rows[j]].mission == d.mission && decisions[rows[j]].structured
                    && decisions[rows[j]].supersedes == d.supersedes)
      {
        var candidate := decisions[rows[k]];
        if candidate.mission == d.mission && candidate.structured && candidate.supersedes == d.supersedes {
          return Some(DecisionValidation);
        }
        k := k + 1;
      }
      forall id | id in decisions
        ensures !(&& decisions[id].mission == d.mission && decisions[id].structured
                  && decisions[id].supersedes == d.supersedes)
      {
        assert id in rows;
      }
      return None;
    }

    method RecordDecision(d: D.Decision, channel: bool) returns (refusal: Option<Code>)
      modifies this`decisions
      ensures match D.RecordDecision(old(decisions), d, channel)
              case Ok(next) => refusal == None && decisions == next
              case Refused(code) => refusal == Some(code) && decisions == old(decisions)
    {
      if d.id in decisions { return if decisions[d.id] == d then None else Some(DuplicateResult); }
      if !channel { return Some(MissionError); }
      var problem := RequireDecisionLineage(d);
      if problem.Some? { return problem; }
      decisions := decisions[d.id := d];
      return None;
    }
  }
}
