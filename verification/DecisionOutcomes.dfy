/** What every recorded decision says of its comparison, its evidence and its actors, and how others are refused. */
module DecisionOutcomes {
  import opened Outcomes
  import opened Decisions

  /** An identity that was used answers the same record and refuses any other; a new record is refused for its channel
      first, and then for its lineage. */
  lemma RefusedExactly(t: Table, d: Decision, channel: bool)
    ensures var answer := RecordDecision(t, d, channel);
            && (d.id in t ==> answer == if t[d.id] == d then Ok(t) else Refused(DuplicateResult))
            && (d.id !in t && !channel ==> answer == Refused(MissionError))
            && (d.id !in t && channel && answer.Refused? ==> answer.code == DecisionValidation)
            && (d.id !in t && answer.Ok? ==> answer.value == t[d.id := d])
  {}

  /* ---------- the comparison ---------- */

  predicate OnlyCredible(xs: seq<Alternative>, i: nat) {
    i < |xs| && forall j :: 0 <= j < |xs| ==> (xs[j].credible <==> j == i)
  }

  lemma {:induction false} NoneIsCounted(xs: seq<Alternative>)
    requires forall i :: 0 <= i < |xs| ==> !xs[i].credible
    ensures CredibleCount(xs) == 0
  {
    if xs != [] { NoneIsCounted(xs[1..]); }
  }

  lemma {:induction false} OneIsCounted(xs: seq<Alternative>, i: nat)
    requires OnlyCredible(xs, i)
    ensures CredibleCount(xs) == 1
  {
    if i == 0 {
      NoneIsCounted(xs[1..]);
    } else {
      assert OnlyCredible(xs[1..], i - 1);
      OneIsCounted(xs[1..], i - 1);
    }
  }

  /** The alternative is assessed by each criterion once, by nothing else, and gives a reason exactly if it is out. */
  predicate Assessed(m: Matter, x: Alternative) {
    && (forall c :: c in m.criteria ==> c.id in x.assessed)
    && (forall id :: id in x.assessed ==> exists c :: c in m.criteria && c.id == id)
    && (forall i, j :: 0 <= i < j < |x.assessed| ==> x.assessed[i] != x.assessed[j])
    && (x.credible <==> x.rejection == None)
  }

  /** The alternatives differ, are all assessed alike, and stand against each other: one that is credible alone has
      others against it, and credible ones were searched for; with none, nothing is recommended. */
  ghost predicate Compared(m: Matter) {
    && (forall i, j :: 0 <= i < j < |m.criteria| ==> m.criteria[i].id != m.criteria[j].id)
    && (forall i, j :: 0 <= i < j < |m.alternatives| ==> m.alternatives[i].option != m.alternatives[j].option)
    && (forall x :: x in m.alternatives ==> Assessed(m, x))
    && m.recommendation.Some?
    && (m.recommendation.value.option.Some? ==>
          exists x :: x in m.alternatives && x.credible && x.option == m.recommendation.value.option.value)
    && (forall x :: x in m.alternatives && x.credible ==> m.search.Some?)
    && (forall i: nat :: OnlyCredible(m.alternatives, i) ==> exists x :: x in m.alternatives && !x.credible)
  }

  lemma CriteriaAreListed(m: Matter, x: Alternative)
    requires Distinct(x.assessed) && Texts(x.assessed) == Texts(CriterionIds(m.criteria)) && ValidAlternative(x)
    ensures Assessed(m, x)
  {
    forall c | c in m.criteria ensures c.id in x.assessed {
      var i :| 0 <= i < |m.criteria| && m.criteria[i] == c;
      assert CriterionIds(m.criteria)[i] in Texts(CriterionIds(m.criteria));
      assert c.id in Texts(x.assessed);
    }
    forall id | id in x.assessed ensures exists c :: c in m.criteria && c.id == id {
      assert id in Texts(x.assessed);
      var i :| 0 <= i < |CriterionIds(m.criteria)| && CriterionIds(m.criteria)[i] == id;
      assert m.criteria[i] in m.criteria;
    }
  }

  lemma IdsDiffer(m: Matter)
    requires Distinct(CriterionIds(m.criteria)) && Distinct(OptionIds(m.alternatives))
    ensures forall i, j :: 0 <= i < j < |m.criteria| ==> m.criteria[i].id != m.criteria[j].id
    ensures forall i, j :: 0 <= i < j < |m.alternatives| ==> m.alternatives[i].option != m.alternatives[j].option
  {
    forall i, j | 0 <= i < j < |m.criteria| ensures m.criteria[i].id != m.criteria[j].id {
      assert CriterionIds(m.criteria)[i] != CriterionIds(m.criteria)[j];
    }
    forall i, j | 0 <= i < j < |m.alternatives| ensures m.alternatives[i].option != m.alternatives[j].option {
      assert OptionIds(m.alternatives)[i] != OptionIds(m.alternatives)[j];
    }
  }

  lemma ValidIsCompared(d: Decision)
    requires Valid(d) && d.structured
    ensures Compared(d.matter)
  {
    var m := d.matter;
    IdsDiffer(m);
    forall x | x in m.alternatives ensures Assessed(m, x) && (x.credible ==> m.search.Some?) {
      var i :| 0 <= i < |m.alternatives| && m.alternatives[i] == x;
      CriteriaAreListed(m, x);
      if x.credible { CredibleIsCounted(m.alternatives, i); }
    }
    forall i: nat | OnlyCredible(m.alternatives, i) ensures exists x :: x in m.alternatives && !x.credible {
      OneIsCounted(m.alternatives, i);
      var j :| 0 <= j < |m.alternatives| && !m.alternatives[j].credible;
      assert m.alternatives[j] in m.alternatives;
    }
  }

  /** In every run each structured decision compares its alternatives so, and is inconclusive exactly when it
      recommends none of them. */
  lemma RecordedDecisionsCompare(u: Trace, k: Id)
    requires k in Run(u) && Run(u)[k].structured
    ensures Compared(Run(u)[k].matter)
    ensures Run(u)[k].status == Some(Inconclusive) <==> Run(u)[k].matter.recommendation.value.option == None
  {
    RunKeeps(u);
    assert Sound(Run(u), k);
    ValidIsCompared(Run(u)[k]);
  }

  /* ---------- the evidence ---------- */

  /** The context or a claim of the decision gives the reference. */
  predicate Given(m: Matter, reference: Text) {
    (m.context.Some? && reference in m.context.value.provenance)
      || exists e :: e in m.evidence && e.source == Some(reference)
  }

  lemma TraceableIsGiven(m: Matter, reference: Text)
    requires m.context.Some? && Traceable(m, reference)
    ensures Given(m, reference)
  {
    if reference !in m.context.value.provenance {
      var i :| 0 <= i < |m.evidence| && m.evidence[i].source == Some(reference);
      assert m.evidence[i] in m.evidence;
    }
  }

  /** In every run each criterion of a structured decision comes from what it gives, verified claims name a source
      that the decision references, and no decision is without references. */
  lemma RecordedDecisionsAreGrounded(u: Trace, k: Id)
    requires k in Run(u)
    ensures var d := Run(u)[k];
            && d.references != []
            && (d.structured ==> d.matter.evidence != [] && d.matter.criteria != [] && d.matter.alternatives != [])
            && (forall c, x :: c in d.matter.criteria && x in c.provenance ==> Given(d.matter, x))
            && (forall e :: e in d.matter.evidence && e.class_ == Verified ==>
                  e.source.Some? && e.source.value in d.references)
  {
    RunKeeps(u);
    assert Sound(Run(u), k);
    var d := Run(u)[k];
    forall c, x | c in d.matter.criteria && x in c.provenance ensures Given(d.matter, x) {
      var i :| 0 <= i < |d.matter.criteria| && d.matter.criteria[i] == c;
      var j :| 0 <= j < |c.provenance| && c.provenance[j] == x;
      TraceableIsGiven(d.matter, x);
    }
  }

  /* ---------- the actors ---------- */

  /** In every run the producer acts until a decision is settled and somebody decides it then; the evaluator of a
      validation that is no longer pending is not the producer, and gave evidence. A record of the old schema says
      none of this. */
  lemma RecordedActorsAreApart(u: Trace, k: Id)
    requires k in Run(u)
    ensures var d := Run(u)[k];
            && (d.structured ==>
                  && d.status.Some? && d.producer.Some? && d.validation.Some? && d.disposition == d.status
                  && (if d.status.value in {Staged, Inconclusive}
                      then d.producer == Some(d.actor) && d.deciding == None && d.supersedes == None
                      else d.deciding == Some(d.actor) && d.supersedes.Some?)
                  && (if d.validation.value.verdict == Pending
                      then d.validation.value.evaluator == None && d.validation.value.evidence == []
                      else && d.validation.value.evaluator.Some? && d.validation.value.evidence != []
                           && d.validation.value.evaluator.value != d.producer.value)
                  && (d.status.value == Accepted ==> d.validation.value.verdict == Passed))
            && (!d.structured ==>
                  && d.status == None && d.producer == None && d.deciding == None && d.validation == None
                  && d.supersedes == None && d.matter.recommendation == None && d.matter.context == None)
  {
    RunKeeps(u);
    assert Sound(Run(u), k);
  }
}
