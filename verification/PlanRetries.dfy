/** Work on one task, review by review: when the flow asks for another review or another proposal, and when it
    decides, in terms of the trace alone. */
module PlanRetries {
  import opened Outcomes
  import opened PlanGraph
  import opened PlanExecution

  /** The rejecting reviews since the last claim. */
  function Rejections(trace: Trace): nat {
    match trace
    case Start => 0
    case After(_, Claimed(_)) => 0
    case After(before, Reviewed(_, _, review)) => Rejections(before) + if review.accepted then 0 else 1
    case After(before, Accepted(_, _, _)) => Rejections(before)
  }

  /** The review accepts the result, is of its task, and checked everything that it cites. */
  predicate Approves(review: Review, result: TaskResult) {
    review.accepted && review.task == result.task && forall e :: e in result.cited ==> e in review.checked
  }

  /** The result is of the task and cites nothing but its evidence. */
  predicate Answers(result: TaskResult, task: Task) {
    result.task == task.id && forall e :: e in result.cited ==> e in task.evidence
  }

  /** The review accepts the result without approving it. */
  predicate Futile(e: Event) { e.Reviewed? && e.review.accepted && !Approves(e.review, e.result) }

  /** The consecutive futile reviews at the end. */
  function FutileReviews(trace: Trace): nat {
    match trace
    case Start => 0
    case After(before, e) => if Futile(e) then FutileReviews(before) + 1 else 0
  }

  predicate LastApproves(trace: Trace) {
    trace.After? && trace.event.Reviewed? && Approves(trace.event.review, trace.event.result)
  }

  /** The flow has an approved result, or has been refused too often. */
  predicate Decided(retries: nat, trace: Trace) {
    LastApproves(trace) || Rejections(trace) == retries + 1 || FutileReviews(trace) == retries + 1
  }

  /** What is reviewed next: the same result after a futile review, and a new proposal otherwise. */
  function UnderReview(agents: Agents, task: Task, trace: Trace): TaskResult {
    if trace.After? && Futile(trace.event) then trace.event.result else agents.propose(trace, task)
  }

  /** The flow asks for another review. */
  predicate GoesOn(agents: Agents, retries: nat, task: Task, trace: Trace) {
    && !Decided(retries, trace) && !agents.stops(trace)
    && (Answers(UnderReview(agents, task, trace), task) || (trace.After? && Futile(trace.event)))
  }

  function NextReview(agents: Agents, task: Task, trace: Trace): Trace {
    var result := UnderReview(agents, task, trace);
    After(trace, Reviewed(task.id, result, agents.review(trace, result)))
  }

  /** One review after another leads from `claimed` to `trace`. */
  predicate Worked(agents: Agents, retries: nat, task: Task, claimed: Trace, trace: Trace) {
    trace == claimed ||
    (trace.After? && Worked(agents, retries, task, claimed, trace.before)
     && GoesOn(agents, retries, task, trace.before) && trace == NextReview(agents, task, trace.before))
  }

  /** How the work on a task stands when no further review is asked for. */
  function Verdict(agents: Agents, retries: nat, trace: Trace): Ending {
    if agents.stops(trace) then Stopped
    else if LastApproves(trace) then ReviewAccepted
    else if Rejections(trace) == retries + 1 then ReviewRejected
    else if FutileReviews(trace) == retries + 1 then ReviewExhausted
    else Stopped
  }

  predicate Finished(agents: Agents, retries: nat, task: Task, claimed: Trace, after: Trace, ending: Ending) {
    && Worked(agents, retries, task, claimed, after) && !GoesOn(agents, retries, task, after)
    && ending == Verdict(agents, retries, after)
  }

  /* ---------- the loops do just that ---------- */

  lemma WorkedOn(agents: Agents, retries: nat, task: Task, claimed: Trace, trace: Trace)
    requires Worked(agents, retries, task, claimed, trace) && GoesOn(agents, retries, task, trace)
    ensures Worked(agents, retries, task, claimed, NextReview(agents, task, trace))
  {}

  /** The reviews of one result, from a point at which `done` of them were futile. */
  lemma {:induction false} RoundsWork(
    agents: Agents, retries: nat, task: Task, claimed: Trace, result: TaskResult, trace: Trace, done: nat)
    requires done <= retries + 1 && Worked(agents, retries, task, claimed, trace)
    requires Rejections(trace) <= retries && FutileReviews(trace) == done && !LastApproves(trace)
    requires Answers(result, task) && (done <= retries ==> result == UnderReview(agents, task, trace))
    requires done > 0 ==> !agents.stops(trace)
    ensures var (after, ending) := ReviewRounds(agents, task, result, trace, retries + 1 - done);
            && Worked(agents, retries, task, claimed, after)
            && (ending == ReviewRejected ==>
                  && !agents.stops(after) && Rejections(after) == Rejections(trace) + 1 && FutileReviews(after) == 0
                  && !LastApproves(after))
            && (ending != ReviewRejected ==>
                  !GoesOn(agents, retries, task, after) && ending == Verdict(agents, retries, after))
    decreases retries + 1 - done
  {
    if done <= retries && !agents.stops(trace) {
      var review := agents.review(trace, result);
      var reviewed := After(trace, Reviewed(task.id, result, review));
      assert reviewed == NextReview(agents, task, trace);
      WorkedOn(agents, retries, task, claimed, trace);
      if !agents.stops(reviewed) && review.accepted && !Approves(review, result) {
        RoundsWork(agents, retries, task, claimed, result, reviewed, done + 1);
      }
    }
  }

  lemma ReviewsWork(agents: Agents, retries: nat, task: Task, claimed: Trace, trace: Trace)
    requires Worked(agents, retries, task, claimed, trace)
    requires Rejections(trace) <= retries && FutileReviews(trace) == 0 && !LastApproves(trace)
    requires Answers(agents.propose(trace, task), task)
    ensures var (after, ending) := ReviewRounds(agents, task, agents.propose(trace, task), trace, retries + 1);
            && Worked(agents, retries, task, claimed, after)
            && (ending == ReviewRejected ==>
                  && !agents.stops(after) && Rejections(after) == Rejections(trace) + 1 && FutileReviews(after) == 0
                  && !LastApproves(after))
            && (ending != ReviewRejected ==>
                  !GoesOn(agents, retries, task, after) && ending == Verdict(agents, retries, after))
  {
    RoundsWork(agents, retries, task, claimed, agents.propose(trace, task), trace, 0);
  }

  /** The proposals, from a point at which `done` of them were rejected. */
  lemma {:induction false} ProposalsWork(
    agents: Agents, retries: nat, task: Task, claimed: Trace, trace: Trace, done: nat)
    requires done <= retries + 1 && Worked(agents, retries, task, claimed, trace)
    requires Rejections(trace) == done && FutileReviews(trace) == 0 && !LastApproves(trace)
    requires done > 0 ==> !agents.stops(trace)
    ensures var (after, ending) := Proposals(agents, task, retries + 1, trace, retries + 1 - done);
            Finished(agents, retries, task, claimed, after, ending)
    decreases retries + 1 - done
  {
    if done <= retries && !agents.stops(trace) && Answers(agents.propose(trace, task), task) {
      ReviewsWork(agents, retries, task, claimed, trace);
      var (reviewed, ending) := ReviewRounds(agents, task, agents.propose(trace, task), trace, retries + 1);
      if ending == ReviewRejected { ProposalsWork(agents, retries, task, claimed, reviewed, done + 1); }
    }
  }

  /** Work on a claimed task goes on review by review, from the same result after a futile review and from a new
      proposal after a rejection, until the trace decides it or something stops it. */
  lemma ProposalsFinish(agents: Agents, retries: nat, task: Task, trace: Trace)
    ensures var claimed := After(trace, Claimed(task.id));
            var (after, ending) := Proposals(agents, task, retries + 1, claimed, retries + 1);
            Finished(agents, retries, task, claimed, after, ending)
  {
    ProposalsWork(agents, retries, task, After(trace, Claimed(task.id)), After(trace, Claimed(task.id)), 0);
  }

  /* ---------- there is one way to go ---------- */

  function Length(trace: Trace): nat { if trace == Start then 0 else Length(trace.before) + 1 }

  lemma {:induction false} WorkIsLonger(agents: Agents, retries: nat, task: Task, claimed: Trace, trace: Trace)
    requires Worked(agents, retries, task, claimed, trace)
    ensures trace == claimed || Length(claimed) < Length(trace)
  {
    if trace != claimed { WorkIsLonger(agents, retries, task, claimed, trace.before); }
  }

  lemma {:induction false} SameLengthSameWork(
    agents: Agents, retries: nat, task: Task, claimed: Trace, a: Trace, b: Trace)
    requires Worked(agents, retries, task, claimed, a) && Worked(agents, retries, task, claimed, b)
    requires Length(a) == Length(b)
    ensures a == b
  {
    WorkIsLonger(agents, retries, task, claimed, a);
    WorkIsLonger(agents, retries, task, claimed, b);
    if a != claimed && b != claimed { SameLengthSameWork(agents, retries, task, claimed, a.before, b.before); }
  }

  /** Work that does not go on is not the beginning of longer work. */
  lemma {:induction false} NoWorkBeyond(agents: Agents, retries: nat, task: Task, claimed: Trace, a: Trace, b: Trace)
    requires Worked(agents, retries, task, claimed, a) && !GoesOn(agents, retries, task, a)
    requires Worked(agents, retries, task, claimed, b)
    ensures Length(b) <= Length(a)
  {
    WorkIsLonger(agents, retries, task, claimed, a);
    WorkIsLonger(agents, retries, task, claimed, b);
    if Length(b) > Length(a) {
      NoWorkBeyond(agents, retries, task, claimed, a, b.before);
      SameLengthSameWork(agents, retries, task, claimed, a, b.before);
    }
  }

  lemma WorkIsDetermined(agents: Agents, retries: nat, task: Task, claimed: Trace, a: Trace, b: Trace)
    requires Worked(agents, retries, task, claimed, a) && !GoesOn(agents, retries, task, a)
    requires Worked(agents, retries, task, claimed, b) && !GoesOn(agents, retries, task, b)
    ensures a == b
  {
    NoWorkBeyond(agents, retries, task, claimed, a, b);
    NoWorkBeyond(agents, retries, task, claimed, b, a);
    SameLengthSameWork(agents, retries, task, claimed, a, b);
  }

  /* ---------- what becomes of a task ---------- */

  /** A task is accepted with a result exactly when work on it leads to a review that approves it and the
      flow is not stopped there: when one of the first `retries + 1` proposals is approved within its `retries + 1`
      reviews, after only rejected ones. */
  lemma AcceptedExactly(agents: Agents, retries: nat, task: Task, trace: Trace, after: Trace)
    requires !agents.stops(trace)
    ensures RunTask(agents, retries, task, trace) == (after, None) <==>
            && after.After? && LastApproves(after.before) && !agents.stops(after.before)
            && after.event == Accepted(task.id, after.before.event.result, after.before.event.review)
            && Worked(agents, retries, task, After(trace, Claimed(task.id)), after.before)
  {
    var claimed := After(trace, Claimed(task.id));
    ProposalsFinish(agents, retries, task, trace);
    var (settled, ending) := Proposals(agents, task, retries + 1, claimed, retries + 1);
    if after.After? && Worked(agents, retries, task, claimed, after.before) && LastApproves(after.before) {
      WorkIsDetermined(agents, retries, task, claimed, settled, after.before);
    }
  }

  /** A task fails exactly when work on it leads to `retries + 1` rejecting reviews since its claim, or to `retries + 1`
      futile reviews in a row, and the flow is not stopped there. */
  lemma FailedExactly(agents: Agents, retries: nat, task: Task, trace: Trace, after: Trace)
    requires !agents.stops(trace)
    ensures RunTask(agents, retries, task, trace) == (after, Some(TaskFailed(task.id))) <==>
            && (Rejections(after) == retries + 1 || FutileReviews(after) == retries + 1)
            && !agents.stops(after) && Worked(agents, retries, task, After(trace, Claimed(task.id)), after)
  {
    var claimed := After(trace, Claimed(task.id));
    ProposalsFinish(agents, retries, task, trace);
    var (settled, ending) := Proposals(agents, task, retries + 1, claimed, retries + 1);
    if Worked(agents, retries, task, claimed, after) && Decided(retries, after) {
      WorkIsDetermined(agents, retries, task, claimed, settled, after);
    }
  }

  /** The flow is interrupted in a task exactly where it is stopped, or where a proposal does not answer the task. */
  lemma InterruptedExactly(agents: Agents, retries: nat, task: Task, trace: Trace, after: Trace)
    requires !agents.stops(trace)
    ensures RunTask(agents, retries, task, trace) == (after, Some(Interrupted)) <==>
            && Worked(agents, retries, task, After(trace, Claimed(task.id)), after)
            && (agents.stops(after)
                || (!Decided(retries, after) && !(after.After? && Futile(after.event))
                    && !Answers(agents.propose(after, task), task)))
  {
    var claimed := After(trace, Claimed(task.id));
    ProposalsFinish(agents, retries, task, trace);
    var (settled, ending) := Proposals(agents, task, retries + 1, claimed, retries + 1);
    if Worked(agents, retries, task, claimed, after) && !GoesOn(agents, retries, task, after) {
      WorkIsDetermined(agents, retries, task, claimed, settled, after);
    }
  }

  /* ---------- whole runs ---------- */

  predicate RefusedTooOften(retries: nat, trace: Trace) {
    Rejections(trace) == retries + 1 || FutileReviews(trace) == retries + 1
  }

  /** If nothing stops the flow and every proposal verifies, a task is accepted unless it was refused that often. */
  lemma UnstoppedTasksAreDecided(agents: Agents, retries: nat, task: Task, trace: Trace)
    requires forall t :: !agents.stops(t) && Answers(agents.propose(t, task), task)
    ensures var (after, outcome) := RunTask(agents, retries, task, trace);
            if outcome == None then after.After? && after.event.Accepted? && after.event.task == task.id
            else outcome == Some(TaskFailed(task.id)) && RefusedTooOften(retries, after)
  {
    var (after, outcome) := RunTask(agents, retries, task, trace);
    AcceptedExactly(agents, retries, task, trace, after);
    FailedExactly(agents, retries, task, trace, after);
    InterruptedExactly(agents, retries, task, trace, after);
  }

  lemma {:induction false} PassFailsOnlyThen(agents: Agents, retries: nat, ready: seq<Task>, i: nat, trace: Trace)
    requires i <= |ready|
    ensures var (after, outcome) := RunAll(agents, retries, ready, i, trace);
            outcome.Some? && outcome.value.TaskFailed? ==> RefusedTooOften(retries, after)
    decreases |ready| - i
  {
    if i < |ready| {
      var (next, outcome) := RunTask(agents, retries, ready[i], trace);
      if outcome == None {
        PassFailsOnlyThen(agents, retries, ready, i + 1, next);
      } else if !agents.stops(trace) && outcome.value.TaskFailed? {
        FailedExactly(agents, retries, ready[i], trace, next);
      }
    }
  }

  /** A run fails on a task only after `retries + 1` rejecting reviews since its claim, or `retries + 1` futile reviews
      in a row. */
  lemma {:induction false} RunsFailOnlyThen(
    agents: Agents, retries: nat, tasks: seq<Task>, completed: set<TaskId>, trace: Trace)
    ensures var (after, outcome) := Execution(agents, retries, tasks, completed, trace);
            outcome.Some? && outcome.value.TaskFailed? ==> RefusedTooOften(retries, after)
    decreases Ids(tasks) - completed
  {
    if !(Ids(tasks) <= completed) {
      var ready := ReadyOf(tasks, completed, |tasks|);
      if ready != [] {
        assert ready[0] in tasks[..|tasks|] && ready[0].id in Ids(tasks) - completed && ready[0].id in Ids(ready);
        PassFailsOnlyThen(agents, retries, ready, 0, trace);
        var (next, outcome) := RunAll(agents, retries, ready, 0, trace);
        if outcome == None { RunsFailOnlyThen(agents, retries, tasks, completed + Ids(ready), next); }
      }
    }
  }

  /** In a legal trace every accepted result cites only evidence of its task, all of it was checked by an accepting
      review of that task's result, and this was the review just before. */
  lemma {:induction false} AcceptedResultsAreEarned(
    tasks: seq<Task>, initial: set<TaskId>, trace: Trace, result: TaskResult)
    requires Legal(tasks, initial, trace) && result in Results(trace)
    ensures exists id, review, before :: Earned(tasks, initial, before, id, result, review)
  {
    if result in Results(trace.before) {
      AcceptedResultsAreEarned(tasks, initial, trace.before, result);
    } else {
      var before := trace.before;
      assert before.event == Reviewed(trace.event.task, result, trace.event.review);
      assert Earned(tasks, initial, before, trace.event.task, result, trace.event.review);
    }
  }

  ghost predicate Earned(
    tasks: seq<Task>, initial: set<TaskId>, before: Trace, id: TaskId, result: TaskResult, review: Review)
  {
    && before.After? && before.event == Reviewed(id, result, review) && result.task == id && review.task == id
    && review.accepted && (forall e :: e in result.cited ==> e in review.checked)
    && exists task :: task in tasks && task.id == id && forall e :: e in result.cited ==> e in task.evidence
  }

  /* ---------- the order of the plan ---------- */

  function Claims(trace: Trace): seq<TaskId> {
    match trace
    case Start => []
    case After(before, e) => Claims(before) + if e.Claimed? then [e.task] else []
  }

  function IdsInOrder(tasks: seq<Task>): (ids: seq<TaskId>)
    ensures |ids| == |tasks|
  {
    seq(|tasks|, i requires 0 <= i < |tasks| => tasks[i].id)
  }

  lemma {:induction false} WorkClaimsNothing(agents: Agents, retries: nat, task: Task, claimed: Trace, trace: Trace)
    requires Worked(agents, retries, task, claimed, trace)
    ensures Claims(trace) == Claims(claimed)
  {
    if trace != claimed { WorkClaimsNothing(agents, retries, task, claimed, trace.before); }
  }

  lemma TaskClaimsItself(agents: Agents, retries: nat, task: Task, trace: Trace)
    ensures var (after, outcome) := RunTask(agents, retries, task, trace);
            Claims(after) == Claims(trace) + if agents.stops(trace) then [] else [task.id]
  {
    if !agents.stops(trace) {
      var claimed := After(trace, Claimed(task.id));
      ProposalsFinish(agents, retries, task, trace);
      var settled := Proposals(agents, task, retries + 1, claimed, retries + 1).0;
      WorkClaimsNothing(agents, retries, task, claimed, settled);
    }
  }

  /** Between the traces the ready tasks from index `i` up to `j` were claimed, in this order. */
  predicate ClaimsBetween(before: Trace, after: Trace, ready: seq<Task>, i: nat, j: nat) {
    i <= j <= |ready| && Claims(after) == Claims(before) + IdsInOrder(ready[i..j])
  }

  lemma NothingClaimed(trace: Trace, ready: seq<Task>, i: nat)
    requires i <= |ready|
    ensures ClaimsBetween(trace, trace, ready, i, i)
  {
    assert ready[i..i] == [] && IdsInOrder([]) == [];
  }

  lemma OneMoreClaimed(before: Trace, next: Trace, after: Trace, ready: seq<Task>, i: nat, j: nat)
    requires i < |ready| && Claims(next) == Claims(before) + [ready[i].id]
    requires ClaimsBetween(next, after, ready, i + 1, j)
    ensures ClaimsBetween(before, after, ready, i, j)
  {
    FirstClaim(ready, i, j);
  }

  /** A pass claims its tasks one after another, in the order in which they are ready; all of them, unless it is ended
      before. */
  lemma {:induction false} PassesClaimInOrder(agents: Agents, retries: nat, ready: seq<Task>, i: nat, trace: Trace)
    returns (j: nat)
    requires i <= |ready|
    ensures var (after, outcome) := RunAll(agents, retries, ready, i, trace);
            ClaimsBetween(trace, after, ready, i, j) && (outcome == None ==> j == |ready|)
    decreases |ready| - i
  {
    j := i;
    NothingClaimed(trace, ready, i);
    if i < |ready| {
      TaskClaimsItself(agents, retries, ready[i], trace);
      var (next, outcome) := RunTask(agents, retries, ready[i], trace);
      if outcome == None {
        j := PassesClaimInOrder(agents, retries, ready, i + 1, next);
        OneMoreClaimed(trace, next, RunAll(agents, retries, ready, i + 1, next).0, ready, i, j);
      } else if !agents.stops(trace) {
        j := i + 1;
        NothingClaimed(next, ready, i + 1);
        OneMoreClaimed(trace, next, next, ready, i, i + 1);
      }
    }
  }

  lemma FirstClaim(ready: seq<Task>, i: nat, j: nat)
    requires i < j <= |ready|
    ensures IdsInOrder(ready[i..j]) == [ready[i].id] + IdsInOrder(ready[i + 1..j])
  {
    assert ready[i..j] == [ready[i]] + ready[i + 1..j];
  }

  /** The ready tasks are in plan order: of two of them the one that is earlier in the plan comes first. */
  lemma {:induction false} ReadyTasksKeepPlanOrder(tasks: seq<Task>, completed: set<TaskId>, n: nat, i: nat, j: nat)
    requires n <= |tasks| && i < j < |ReadyOf(tasks, completed, n)|
    ensures exists k, l :: 0 <= k < l < n && tasks[k] == ReadyOf(tasks, completed, n)[i]
                           && tasks[l] == ReadyOf(tasks, completed, n)[j]
  {
    var before := ReadyOf(tasks, completed, n - 1);
    if j < |before| {
      ReadyTasksKeepPlanOrder(tasks, completed, n - 1, i, j);
    } else {
      assert before[i] in tasks[..n - 1];
      var k :| 0 <= k < n - 1 && tasks[k] == before[i];
      assert tasks[n - 1] == ReadyOf(tasks, completed, n)[j];
    }
  }
}
