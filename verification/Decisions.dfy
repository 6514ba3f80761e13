/** Mission decisions: the record's own validator, and the lineage from a staged recommendation to
    its one settlement. Texts are interned: the code only compares them. */
module Decisions {
  import opened Outcomes

  type Id = nat
  type Text = nat

  datatype Status = Staged | Accepted | Rejected | Inconclusive

  datatype Class = Verified | Assumption | EngineerPreference | Inference | UnresolvedUnknown

  datatype Claim = Claim(text: Text, class_: Class, source: Option<Text>)

  datatype Criterion = Criterion(id: Text, description: Text, provenance: seq<Text>)

  datatype Alternative = Alternative(option: Text, credible: bool, rejection: Option<Text>, assessed: seq<Text>)

  datatype Recommendation = Recommendation(option: Option<Text>, insufficient: bool, rationale: Text)

  datatype Verdict = Pending | Passed | Failed

  datatype Validation = Validation(verdict: Verdict, evaluator: Option<Text>, evidence: seq<Text>)

  datatype Context = Context(question: Text, provenance: set<Text>)

  /** `structured` distinguishes schema 1.1 from 1.0. */
  datatype Decision = Decision(
    id: Id, structured: bool, mission: Id, conversation: Id, actor: Text, disposition: Option<Status>, reason: Text,
    status: Option<Status>, producer: Option<Text>, deciding: Option<Text>, validation: Option<Validation>,
    supersedes: Option<Id>, references: seq<Text>, matter: Matter)

  /** What a settlement may not change besides mission, conversation and producer. */
  datatype Matter = Matter(
    subject: Text, scope: seq<Text>, authority: Text, changesAuthority: Option<bool>, context: Option<Context>,
    evidence: seq<Claim>, criteria: seq<Criterion>, alternatives: seq<Alternative>, search: Option<Text>,
    recommendation: Option<Recommendation>)

  type Table = map<Id, Decision>

  /* ---------- the record's own validator ---------- */

  predicate Distinct(q: seq<Text>) { forall i, j :: 0 <= i < j < |q| ==> q[i] != q[j] }

  function Texts(q: seq<Text>): set<Text> { set x | x in q }

  function CriterionIds(cs: seq<Criterion>): (ids: seq<Text>)
    ensures |ids| == |cs|
  {
    seq(|cs|, i requires 0 <= i < |cs| => cs[i].id)
  }

  function OptionIds(xs: seq<Alternative>): (ids: seq<Text>)
    ensures |ids| == |xs|
  {
    seq(|xs|, i requires 0 <= i < |xs| => xs[i].option)
  }

  function CredibleCount(xs: seq<Alternative>): nat {
    if xs == [] then 0 else (if xs[0].credible then 1 else 0) + CredibleCount(xs[1..])
  }

  predicate Credible(xs: seq<Alternative>, option: Text) {
    exists i :: 0 <= i < |xs| && xs[i].credible && xs[i].option == option
  }

  predicate AnyRefused(xs: seq<Alternative>) { exists i :: 0 <= i < |xs| && !xs[i].credible }

  predicate ValidAlternative(x: Alternative) { x.credible <==> x.rejection == None }

  predicate ValidRecommendation(r: Recommendation) { r.insufficient <==> r.option == None }

  predicate ValidValidation(v: Validation) {
    if v.verdict == Pending then v.evaluator == None && v.evidence == [] else v.evaluator.Some? && v.evidence != []
  }

  predicate Unstructured(d: Decision) {
    && d.status == None && d.producer == None && d.deciding == None && d.validation == None && d.supersedes == None
    && d.matter.changesAuthority == None && d.matter.context == None && d.matter.recommendation == None
    && d.matter.evidence == [] && d.matter.criteria == [] && d.matter.alternatives == [] && d.matter.search == None
  }

  predicate Complete(d: Decision) {
    && d.status.Some? && d.producer.Some? && d.validation.Some?
    && d.matter.changesAuthority.Some? && d.matter.context.Some? && d.matter.recommendation.Some?
    && d.matter.evidence != [] && d.matter.criteria != [] && d.matter.alternatives != []
  }

  predicate Settles(d: Decision) { d.structured && (d.status == Some(Accepted) || d.status == Some(Rejected)) }

  predicate ValidActors(d: Decision)
    requires Complete(d)
  {
    && d.disposition == d.status
    && (if d.status == Some(Staged) || d.status == Some(Inconclusive)
        then d.producer == Some(d.actor) && d.deciding == None && d.supersedes == None
        else d.deciding == Some(d.actor) && d.supersedes.Some?)
    && d.validation.value.evaluator != d.producer
    && (d.status == Some(Accepted) ==> d.validation.value.verdict == Passed)
  }

  predicate ValidComparison(m: Matter)
    requires m.recommendation.Some?
  {
    var xs, chosen := m.alternatives, m.recommendation.value.option;
    && Distinct(CriterionIds(m.criteria))
    && Distinct(OptionIds(xs))
    && (forall i :: 0 <= i < |xs| ==>
          Distinct(xs[i].assessed) && Texts(xs[i].assessed) == Texts(CriterionIds(m.criteria)))
    && (CredibleCount(xs) == 1 ==> m.search.Some? && AnyRefused(xs))
    && (CredibleCount(xs) > 1 ==> m.search.Some?)
    && (chosen.Some? ==> Credible(xs, chosen.value))
    && (CredibleCount(xs) == 0 ==> m.recommendation.value.insufficient)
  }

  predicate ValidEvidence(d: Decision)
    requires d.matter.context.Some?
  {
    var m := d.matter;
    && (forall i, j :: 0 <= i < |m.criteria| && 0 <= j < |m.criteria[i].provenance| ==>
          Traceable(m, m.criteria[i].provenance[j]))
    && (forall i :: 0 <= i < |m.evidence| && m.evidence[i].class_ == Verified ==>
          m.evidence[i].source.Some? && m.evidence[i].source.value in d.references)
  }

  predicate Traceable(m: Matter, reference: Text)
    requires m.context.Some?
  {
    reference in m.context.value.provenance
      || (exists i :: 0 <= i < |m.evidence| && m.evidence[i].source == Some(reference))
  }

  predicate Valid(d: Decision) {
    && d.references != []
    && if !d.structured then Unstructured(d)
       else
         && Complete(d)
         && ValidActors(d)
         && ValidRecommendation(d.matter.recommendation.value)
         && (d.status == Some(Inconclusive) <==> d.matter.recommendation.value.insufficient)
         && ValidValidation(d.validation.value)
         && (forall i :: 0 <= i < |d.matter.alternatives| ==> ValidAlternative(d.matter.alternatives[i]))
         && ValidComparison(d.matter)
         && ValidEvidence(d)
  }

  /* ---------- recording ---------- */

  predicate Preserves(prior: Decision, d: Decision) {
    prior.mission == d.mission && prior.conversation == d.conversation && prior.producer == d.producer
      && prior.matter == d.matter
  }

  /** Another structured decision of the same mission that already supersedes the same recommendation. */
  predicate SettledInMission(t: Table, d: Decision) {
    exists k :: k in t && t[k].mission == d.mission && t[k].structured && t[k].supersedes == d.supersedes
  }

  function Lineage(t: Table, d: Decision): Option<Code> {
    if !Settles(d) then None
    else if d.supersedes == None || d.supersedes.value !in t then Some(DecisionValidation)
    else
      var prior := t[d.supersedes.value];
      if !prior.structured || prior.status != Some(Staged) then Some(DecisionValidation)
      else if !Preserves(prior, d) then Some(DecisionValidation)
      else if !(Texts(prior.references) <= Texts(d.references)) then Some(DecisionValidation)
      else if SettledInMission(t, d) then Some(DecisionValidation)
      else None
  }

  /** `record_decision`; `channel` is the verdict on the mission and its conversation. */
  function RecordDecision(t: Table, d: Decision, channel: bool): Result<Table> {
    if d.id in t then (if t[d.id] == d then Ok(t) else Refused(DuplicateResult))
    else if !channel then Refused(MissionError)
    else if Lineage(t, d).Some? then Refused(Lineage(t, d).value)
    else Ok(t[d.id := d])
  }

  /* ---------- runs ---------- */

  datatype Trace = Start | After(before: Trace, decision: Decision, channel: bool)

  function Run(u: Trace): Table {
    if u == Start then map[]
    else
      var t := Run(u.before);
      if !Valid(u.decision) then t
      else match RecordDecision(t, u.decision, u.channel) case Ok(next) => next case Refused(_) => t
  }

  /** A settlement continues exactly the staged recommendation that it names. */
  predicate Continues(t: Table, d: Decision) {
    && d.supersedes.Some? && d.supersedes.value in t
    && var prior := t[d.supersedes.value];
    && prior.structured && prior.status == Some(Staged)
    && SameRecommendation(prior, d)
    && forall x :: x in prior.references ==> x in d.references
  }

  /** Everything that a settlement has in common with its proposal. */
  predicate SameRecommendation(prior: Decision, d: Decision) {
    && d.mission == prior.mission && d.conversation == prior.conversation && d.producer == prior.producer
    && d.matter.subject == prior.matter.subject && d.matter.scope == prior.matter.scope
    && d.matter.authority == prior.matter.authority
    && d.matter.changesAuthority == prior.matter.changesAuthority
    && d.matter.context == prior.matter.context && d.matter.evidence == prior.matter.evidence
    && d.matter.criteria == prior.matter.criteria && d.matter.alternatives == prior.matter.alternatives
    && d.matter.search == prior.matter.search && d.matter.recommendation == prior.matter.recommendation
  }

  predicate Sound(t: Table, k: Id)
    requires k in t
  {
    t[k].id == k && Valid(t[k]) && (Settles(t[k]) ==> Continues(t, t[k]))
  }

  predicate NoRival(t: Table, j: Id, k: Id)
    requires j in t && k in t
  {
    t[j].supersedes.Some? && t[j].supersedes == t[k].supersedes ==> j == k
  }

  ghost predicate Inv(t: Table) {
    (forall k :: k in t ==> Sound(t, k)) && (forall j, k :: j in t && k in t ==> NoRival(t, j, k))
  }

  lemma OnlySettlementsSupersede(d: Decision)
    requires Valid(d)
    ensures d.supersedes.Some? <==> Settles(d)
  {
    if d.structured {
      match d.status.value
      case Staged =>
      case Accepted =>
      case Rejected =>
      case Inconclusive =>
    }
  }

  /** Comparing within the mission is enough: a settlement elsewhere cannot supersede the same proposal. */
  lemma NoSettlementElsewhere(t: Table, d: Decision, k: Id)
    requires Inv(t) && Valid(d) && Settles(d) && Lineage(t, d) == None && k in t
    ensures t[k].supersedes != d.supersedes
  {
    OnlySettlementsSupersede(t[k]);
    assert Sound(t, k);
  }

  lemma SoundStays(t: Table, d: Decision, k: Id)
    requires d.id !in t && k in t && Sound(t, k)
    ensures Sound(t[d.id := d], k)
  {}

  lemma TextsAmong(a: seq<Text>, b: seq<Text>)
    ensures Texts(a) <= Texts(b) <==> forall x :: x in a ==> x in b
  {
    if Texts(a) <= Texts(b) { forall x | x in a ensures x in b { assert x in Texts(a); } }
  }

  lemma LineageContinues(t: Table, d: Decision)
    requires Settles(d) && Lineage(t, d) == None
    ensures Continues(t, d)
  {
    TextsAmong(t[d.supersedes.value].references, d.references);
  }

  lemma RecordKeeps(t: Table, d: Decision)
    requires Inv(t) && Valid(d) && d.id !in t && Lineage(t, d) == None
    ensures Inv(t[d.id := d])
  {
    var next := t[d.id := d];
    if Settles(d) { LineageContinues(t, d); }
    forall k | k in next ensures Sound(next, k) {
      if k in t { SoundStays(t, d, k); }
    }
    OnlySettlementsSupersede(d);
    forall j, k | j in next && k in next ensures NoRival(next, j, k) {
      if j in t && k in t {
        assert NoRival(t, j, k);
      } else if Settles(d) {
        if j in t { NoSettlementElsewhere(t, d, j); }
        if k in t { NoSettlementElsewhere(t, d, k); }
      }
    }
  }

  lemma {:induction false} RunKeeps(u: Trace)
    ensures Inv(Run(u))
  {
    if u.After? {
      RunKeeps(u.before);
      var t := Run(u.before);
      if Valid(u.decision) && u.decision.id !in t && u.channel && Lineage(t, u.decision) == None {
        RecordKeeps(t, u.decision);
      }
    }
  }

  /* ---------- what the history guarantees ---------- */

  /** Every settlement continues exactly one staged decision, which no other decision settles, and
      the staged decision itself supersedes nothing: the lineage has depth one. */
  lemma EverySettlementHasItsOwnProposal(u: Trace, k: Id)
    requires k in Run(u) && Settles(Run(u)[k])
    ensures Continues(Run(u), Run(u)[k])
    ensures Run(u)[Run(u)[k].supersedes.value].supersedes == None
    ensures forall j :: j in Run(u) && Run(u)[j].supersedes == Run(u)[k].supersedes ==> j == k
  {
    RunKeeps(u);
    var t := Run(u);
    assert Sound(t, k);
    var p := t[k].supersedes.value;
    assert Sound(t, p);
    OnlySettlementsSupersede(t[p]);
    forall j | j in t && t[j].supersedes == t[k].supersedes ensures j == k {
      assert NoRival(t, j, k);
    }
  }

  lemma {:induction false} CredibleIsCounted(xs: seq<Alternative>, i: nat)
    requires i < |xs| && xs[i].credible
    ensures CredibleCount(xs) >= 1
    ensures |xs| == 1 ==> CredibleCount(xs) == 1
  {
    if i > 0 { CredibleIsCounted(xs[1..], i - 1); }
    if |xs| == 1 { assert xs[1..] == []; }
  }

  /** What the code accepts is a credible option that its proposal recommended, compared with at
      least one other after a documented search, and passed by somebody other than its producer. */
  lemma AcceptedOptionsAreEarned(u: Trace, k: Id)
    requires k in Run(u) && Run(u)[k].structured && Run(u)[k].status == Some(Accepted)
    ensures var d := Run(u)[k];
            && Complete(d) && d.supersedes.Some? && d.supersedes.value in Run(u)
            && d.matter.recommendation.value.option.Some?
            && Credible(d.matter.alternatives, d.matter.recommendation.value.option.value)
            && Run(u)[d.supersedes.value].matter.recommendation == d.matter.recommendation
            && |d.matter.alternatives| >= 2 && d.matter.search.Some?
            && d.validation.value.verdict == Passed && d.validation.value.evidence != []
            && d.validation.value.evaluator.Some? && d.validation.value.evaluator != Run(u)[d.supersedes.value].producer
  {
    RunKeeps(u);
    assert Sound(Run(u), k);
    var xs := Run(u)[k].matter.alternatives;
    var i :| 0 <= i < |xs| && xs[i].credible && xs[i].option == Run(u)[k].matter.recommendation.value.option.value;
    CredibleIsCounted(xs, i);
  }

  /** Each verified claim of the proposal names a source that both records reference. */
  predicate CarriesVerified(prior: Decision, d: Decision) {
    forall i :: 0 <= i < |prior.matter.evidence| && prior.matter.evidence[i].class_ == Verified ==>
      && prior.matter.evidence[i].source.Some?
      && prior.matter.evidence[i].source.value in prior.references
      && prior.matter.evidence[i].source.value in d.references
  }

  /** Verified evidence of a proposal stays in the lineage of its settlement. */
  lemma VerifiedEvidenceSurvives(u: Trace, k: Id)
    requires k in Run(u) && Settles(Run(u)[k])
    ensures Continues(Run(u), Run(u)[k]) && CarriesVerified(Run(u)[Run(u)[k].supersedes.value], Run(u)[k])
  {
    RunKeeps(u);
    var d := Run(u)[k];
    assert Sound(Run(u), k);
    var prior := Run(u)[d.supersedes.value];
    assert Sound(Run(u), d.supersedes.value);
    forall i | 0 <= i < |prior.matter.evidence| && prior.matter.evidence[i].class_ == Verified
      ensures prior.matter.evidence[i].source.Some? && prior.matter.evidence[i].source.value in d.references
    {
      assert prior.matter.evidence[i].source.value in Texts(prior.references);
    }
  }

  /** A proposal is open as long as nobody, in any mission, supersedes it. */
  predicate OpenProposal(t: Table, p: Id) {
    && p in t && t[p].structured && t[p].status == Some(Staged)
    && forall k :: k in t ==> t[k].supersedes != Some(p)
  }

  /** Exactly which new decisions a reachable table admits. */
  lemma AdmittedExactly(u: Trace, d: Decision, channel: bool)
    requires Valid(d) && d.id !in Run(u)
    ensures RecordDecision(Run(u), d, channel).Ok? <==>
            && channel
            && (Settles(d) ==> && OpenProposal(Run(u), d.supersedes.value)
                               && SameRecommendation(Run(u)[d.supersedes.value], d)
                               && forall x :: x in Run(u)[d.supersedes.value].references ==> x in d.references)
  {
    RunKeeps(u);
    var t := Run(u);
    OnlySettlementsSupersede(d);
    if Settles(d) {
      if OpenProposal(t, d.supersedes.value) { TextsAmong(t[d.supersedes.value].references, d.references); }
      if Lineage(t, d) == None {
        LineageContinues(t, d);
        forall k | k in t ensures t[k].supersedes != d.supersedes { NoSettlementElsewhere(t, d, k); }
      } else if OpenProposal(t, d.supersedes.value) {
        assert !SettledInMission(t, d);
      }
    }
  }

  predicate Prefix(u: Trace, v: Trace) { u == v || (v.After? && Prefix(u, v.before)) }

  /** Recorded decisions are immutable, and recording one again is answered without effect. */
  lemma {:induction false} DecisionsAreImmutable(u: Trace, v: Trace, k: Id)
    requires Prefix(u, v) && k in Run(u)
    ensures k in Run(v) && Run(v)[k] == Run(u)[k]
    ensures forall d: Decision, channel: bool :: d.id == k ==>
              RecordDecision(Run(v), d, channel) == if d == Run(u)[k] then Ok(Run(v)) else Refused(DuplicateResult)
  {
    if u != v { DecisionsAreImmutable(u, v.before, k); }
  }
}
