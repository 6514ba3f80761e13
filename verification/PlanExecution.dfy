/** The execution loop of an accepted plan: ready tasks in plan order, each settled by bounded
    rounds of work and review. What the agents answer, and when cancellation or an error stops
    the flow, is arbitrary. */
module PlanExecution {
  import opened Outcomes
  import opened PlanGraph

  datatype Task = Task(id: TaskId, dependsOn: set<TaskId>, evidence: set<string>)

  datatype TaskResult = TaskResult(task: TaskId, cited: set<string>, content: nat)

  datatype Review = Review(task: TaskId, accepted: bool, checked: set<string>, content: nat)

  /** A result that passes `verify`. */
  predicate Verified(r: TaskResult, t: Task) { r.task == t.id && r.cited <= t.evidence }

  /** A review that passes `accept_review` for this result. */
  predicate Authorizes(v: Review, r: TaskResult) { v.task == r.task && r.cited <= v.checked && v.accepted }

  datatype Event =
    | Claimed(task: TaskId)
    | Reviewed(task: TaskId, result: TaskResult, review: Review)
    | Accepted(task: TaskId, result: TaskResult, review: Review)

  /** What happened so far, oldest first. */
  datatype Trace = Start | After(before: Trace, event: Event)

  datatype Ending = ReviewAccepted | ReviewRejected | ReviewExhausted | Stopped

  datatype Outcome = Report(results: seq<TaskResult>, reviews: seq<Review>) | TaskFailed(task: TaskId) | Interrupted

  /* ---------- plans ---------- */

  ghost predicate UniqueIds(tasks: seq<Task>) {
    forall i, j :: 0 <= i < j < |tasks| ==> tasks[i].id != tasks[j].id
  }

  function Ids(tasks: seq<Task>): set<TaskId> { set t | t in tasks :: t.id }

  ghost predicate KnownDependencies(tasks: seq<Task>) {
    forall t :: t in tasks ==> t.dependsOn <= Ids(tasks)
  }

  ghost function DependenciesOf(tasks: seq<Task>): (deps: Dependencies)
    requires UniqueIds(tasks)
    ensures deps.Keys == Ids(tasks)
    ensures forall t :: t in tasks ==> t.id in deps && deps[t.id] == t.dependsOn
  {
    map t | t in tasks :: t.id := t.dependsOn
  }

  /** What the plan validator guarantees. */
  ghost predicate Executable(tasks: seq<Task>) {
    UniqueIds(tasks) && KnownDependencies(tasks) && Acyclic(DependenciesOf(tasks))
  }

  ghost predicate ReadyExists(tasks: seq<Task>, completed: set<TaskId>) {
    exists t :: t in tasks && IsReady(t, completed)
  }

  predicate IsReady(t: Task, completed: set<TaskId>) { t.id !in completed && t.dependsOn <= completed }

  /** A plan that is not finished always has a task whose dependencies are all done. */
  lemma SomeTaskIsReady(tasks: seq<Task>, completed: set<TaskId>, unfinished: TaskId)
    requires Executable(tasks) && unfinished in Ids(tasks) && unfinished !in completed
    ensures ReadyExists(tasks, completed)
  {
    var pending, deps := Ids(tasks) - completed, DependenciesOf(tasks);
    if !ReadyExists(tasks, completed) {
      forall id | id in pending ensures deps[id] * pending != {} { WaitsForPending(tasks, completed, id); }
      StuckHasCycle(deps, pending);
    }
  }

  lemma WaitsForPending(tasks: seq<Task>, completed: set<TaskId>, id: TaskId)
    requires UniqueIds(tasks) && KnownDependencies(tasks) && !ReadyExists(tasks, completed)
    requires id in Ids(tasks) && id !in completed
    ensures DependenciesOf(tasks)[id] * (Ids(tasks) - completed) != {}
  {
    var t :| t in tasks && t.id == id;
    var d :| d in t.dependsOn && d !in completed;
    assert d in DependenciesOf(tasks)[id] * (Ids(tasks) - completed);
  }

  /* ---------- traces ---------- */

  /** The accepted tasks, with those accepted before a resume. */
  function Done(initial: set<TaskId>, trace: Trace): set<TaskId> {
    match trace
    case Start => initial
    case After(before, e) => Done(initial, before) + if e.Accepted? then {e.task} else {}
  }

  /** The task being worked on. */
  function Open(trace: Trace): set<TaskId> {
    match trace
    case Start => {}
    case After(before, Claimed(t)) => {t}
    case After(before, Reviewed(_, _, _)) => Open(before)
    case After(before, Accepted(_, _, _)) => {}
  }

  function ReviewCount(trace: Trace, t: TaskId): nat {
    match trace
    case Start => 0
    case After(before, e) => ReviewCount(before, t) + if e.Reviewed? && e.task == t then 1 else 0
  }

  function AcceptCount(trace: Trace, t: TaskId): nat {
    match trace
    case Start => 0
    case After(before, e) => AcceptCount(before, t) + if e.Accepted? && e.task == t then 1 else 0
  }

  /** Every event came when it may: claims once the dependencies are done, reviews of the open
      task's own results, acceptances of the result just reviewed by a review that authorizes it. */
  ghost predicate Legal(tasks: seq<Task>, initial: set<TaskId>, trace: Trace) {
    match trace
    case Start => true
    case After(before, e) =>
      && Legal(tasks, initial, before)
      && match e
         case Claimed(t) =>
           t !in Done(initial, before) && Open(before) == {}
           && exists task :: task in tasks && task.id == t && task.dependsOn <= Done(initial, before)
         case Reviewed(t, result, _) =>
           Open(before) == {t} && exists task :: task in tasks && task.id == t && Verified(result, task)
         case Accepted(t, result, review) =>
           Open(before) == {t} && Authorizes(review, result) && t !in Done(initial, before)
           && before.After? && before.event == Reviewed(t, result, review)
  }

  /** In a legal trace a task is accepted at most once, and only if it was not done before. */
  lemma {:induction false} AcceptedOnce(tasks: seq<Task>, initial: set<TaskId>, trace: Trace, t: TaskId)
    requires Legal(tasks, initial, trace)
    ensures AcceptCount(trace, t) == if t in Done(initial, trace) && t !in initial then 1 else 0
  {
    if trace.After? { AcceptedOnce(tasks, initial, trace.before, t); InitialStaysDone(initial, trace.before); }
  }

  lemma {:induction false} InitialStaysDone(initial: set<TaskId>, trace: Trace)
    ensures initial <= Done(initial, trace)
  {
    if trace.After? { InitialStaysDone(initial, trace.before); }
  }

  function Results(trace: Trace): seq<TaskResult> {
    match trace
    case Start => []
    case After(before, e) => Results(before) + if e.Accepted? then [e.result] else []
  }

  function Reviews(trace: Trace): seq<Review> {
    match trace
    case Start => []
    case After(before, e) => Reviews(before) + if e.Accepted? then [e.review] else []
  }

  function ReviewBound(retries: nat): nat { (retries + 1) * (retries + 1) }

  ghost predicate WithinBound(trace: Trace, bound: nat) { forall t :: ReviewCount(trace, t) <= bound }

  /* ---------- the loops, for given answers ---------- */

  /** How the rest of the system answers, after a trace: whether cancellation or an error stops the
      flow there, what a worker proposes, and what a reviewer says of a result. */
  datatype Agents = Agents(
    stops: Trace -> bool, propose: (Trace, Task) -> TaskResult, review: (Trace, TaskResult) -> Review)

  /** Up to `n` reviews of one result: until one rejects it, one authorizes it, or all of them
      accepted it without meeting the review contract. */
  function ReviewRounds(agents: Agents, task: Task, result: TaskResult, trace: Trace, n: nat): (Trace, Ending)
    decreases n
  {
    if n == 0 then (trace, ReviewExhausted)
    else if agents.stops(trace) then (trace, Stopped)
    else
      var review := agents.review(trace, result);
      var reviewed := After(trace, Reviewed(task.id, result, review));
      if agents.stops(reviewed) then (reviewed, Stopped)
      else if !review.accepted then (reviewed, ReviewRejected)
      else if Authorizes(review, result) then (reviewed, ReviewAccepted)
      else ReviewRounds(agents, task, result, reviewed, n - 1)
  }

  /** Up to `n` proposals, each reviewed up to `rounds` times. */
  function Proposals(agents: Agents, task: Task, rounds: nat, trace: Trace, n: nat): (Trace, Ending)
    decreases n
  {
    if n == 0 then (trace, ReviewRejected)
    else if agents.stops(trace) || !Verified(agents.propose(trace, task), task) then (trace, Stopped)
    else
      var (reviewed, ending) := ReviewRounds(agents, task, agents.propose(trace, task), trace, rounds);
      if ending != ReviewRejected then (reviewed, ending) else Proposals(agents, task, rounds, reviewed, n - 1)
  }

  /** One ready task: claim, work and review, accept. No outcome means that it was accepted. */
  function RunTask(agents: Agents, retries: nat, task: Task, trace: Trace): (Trace, Option<Outcome>) {
    if agents.stops(trace) then (trace, Some(Interrupted))
    else
      var (settled, ending) := Proposals(agents, task, retries + 1, After(trace, Claimed(task.id)), retries + 1);
      if ending == Stopped then (settled, Some(Interrupted))
      else if ending != ReviewAccepted || !settled.After? || !settled.event.Reviewed?
        then (settled, Some(TaskFailed(task.id)))
      else (After(settled, Accepted(task.id, settled.event.result, settled.event.review)), None)
  }

  /** The ready tasks from index `i` on, in plan order. */
  function RunAll(agents: Agents, retries: nat, ready: seq<Task>, i: nat, trace: Trace): (Trace, Option<Outcome>)
    requires i <= |ready|
    decreases |ready| - i
  {
    if i == |ready| then (trace, None)
    else
      var (next, outcome) := RunTask(agents, retries, ready[i], trace);
      if outcome.Some? then (next, outcome) else RunAll(agents, retries, ready, i + 1, next)
  }

  /** The ready tasks among the first `n`. */
  function ReadyOf(tasks: seq<Task>, completed: set<TaskId>, n: nat): (ready: seq<Task>)
    requires n <= |tasks|
    ensures forall t :: t in ready <==> t in tasks[..n] && IsReady(t, completed)
  {
    if n == 0 then []
    else
      assert tasks[..n] == tasks[..n - 1] + [tasks[n - 1]];
      ReadyOf(tasks, completed, n - 1) + if IsReady(tasks[n - 1], completed) then [tasks[n - 1]] else []
  }

  lemma {:induction false} ReadyIsUnique(tasks: seq<Task>, completed: set<TaskId>, n: nat)
    requires n <= |tasks| && UniqueIds(tasks)
    ensures UniqueIds(ReadyOf(tasks, completed, n))
  {
    if n > 0 {
      ReadyIsUnique(tasks, completed, n - 1);
      forall t | t in ReadyOf(tasks, completed, n - 1) ensures t.id != tasks[n - 1].id {
        assert t in tasks[..n - 1];
      }
    }
  }

  /** The whole loop from a set of completed tasks; without a ready task it would spin, which an
      executable plan rules out. */
  function Execution(
    agents: Agents, retries: nat, tasks: seq<Task>, completed: set<TaskId>, trace: Trace): (Trace, Option<Outcome>)
    decreases Ids(tasks) - completed
  {
    if Ids(tasks) <= completed then (trace, None)
    else
      var ready := ReadyOf(tasks, completed, |tasks|);
      if ready == [] then (trace, Some(Interrupted))
      else
        assert ready[0] in tasks[..|tasks|] && ready[0].id in Ids(tasks) - completed && ready[0].id in Ids(ready);
        var (next, outcome) := RunAll(agents, retries, ready, 0, trace);
        if outcome.Some? then (next, outcome)
        else Execution(agents, retries, tasks, completed + Ids(ready), next)
  }

  /* ---------- what the loops keep ---------- */

  /** What the work on the open task leaves as it was. */
  ghost predicate SameElsewhere(initial: set<TaskId>, before: Trace, after: Trace, id: TaskId) {
    && Open(after) == Open(before)
    && Done(initial, after) == Done(initial, before)
    && forall t :: t != id ==> ReviewCount(after, t) == ReviewCount(before, t)
  }

  ghost predicate EndsAuthorized(trace: Trace, id: TaskId) {
    && trace.After? && trace.event.Reviewed? && trace.event.task == id
    && Authorizes(trace.event.review, trace.event.result)
  }

  /** The last review of the task is the reviewer's, and does not authorize its result. */
  ghost predicate EndsRefused(agents: Agents, trace: Trace, id: TaskId) {
    && trace.After? && trace.event.Reviewed? && trace.event.task == id
    && trace.event.review == agents.review(trace.before, trace.event.result)
    && !Authorizes(trace.event.review, trace.event.result)
  }

  lemma {:induction false} RoundsAreLegal(
    agents: Agents, task: Task, result: TaskResult, trace: Trace, n: nat, tasks: seq<Task>, initial: set<TaskId>)
    requires Legal(tasks, initial, trace) && Open(trace) == {task.id} && task in tasks && Verified(result, task)
    ensures var (after, ending) := ReviewRounds(agents, task, result, trace, n);
            && Legal(tasks, initial, after) && SameElsewhere(initial, trace, after, task.id)
            && ReviewCount(trace, task.id) <= ReviewCount(after, task.id) <= ReviewCount(trace, task.id) + n
    decreases n
  {
    if n > 0 && !agents.stops(trace) {
      var reviewed := After(trace, Reviewed(task.id, result, agents.review(trace, result)));
      RoundsAreLegal(agents, task, result, reviewed, n - 1, tasks, initial);
    }
  }

  /** How a round ends: an exhausted one has used all its reviews, a stopped one has a reason. */
  lemma {:induction false} RoundsEnd(agents: Agents, task: Task, result: TaskResult, trace: Trace, n: nat)
    ensures var (after, ending) := ReviewRounds(agents, task, result, trace, n);
            && (ending == ReviewAccepted ==> EndsAuthorized(after, task.id))
            && (ending == ReviewRejected || (ending == ReviewExhausted && n > 0) ==>
               EndsRefused(agents, after, task.id))
            && (ending == ReviewExhausted ==> ReviewCount(after, task.id) == ReviewCount(trace, task.id) + n)
            && (ending == Stopped ==> agents.stops(after))
    decreases n
  {
    if n > 0 && !agents.stops(trace) {
      var reviewed := After(trace, Reviewed(task.id, result, agents.review(trace, result)));
      RoundsEnd(agents, task, result, reviewed, n - 1);
    }
  }

  /** The reviews of `n` proposals with `rounds` each. */
  function Rounds(n: nat, rounds: nat): nat { if n == 0 then 0 else Rounds(n - 1, rounds) + rounds }

  lemma {:induction false} RoundsMultiply(n: nat, rounds: nat)
    ensures Rounds(n, rounds) == n * rounds
  {
    if n > 0 {
      RoundsMultiply(n - 1, rounds);
      assert n * rounds == (n - 1) * rounds + rounds;
    }
  }

  lemma {:induction false} ProposalsAreLegal(
    agents: Agents, task: Task, rounds: nat, trace: Trace, n: nat, tasks: seq<Task>, initial: set<TaskId>)
    requires Legal(tasks, initial, trace) && Open(trace) == {task.id} && task in tasks
    ensures var after := Proposals(agents, task, rounds, trace, n).0;
            && Legal(tasks, initial, after) && SameElsewhere(initial, trace, after, task.id)
            && ReviewCount(after, task.id) <= ReviewCount(trace, task.id) + Rounds(n, rounds)
    decreases n
  {
    if n > 0 && !agents.stops(trace) && Verified(agents.propose(trace, task), task) {
      var result := agents.propose(trace, task);
      RoundsAreLegal(agents, task, result, trace, rounds, tasks, initial);
      var reviewed := ReviewRounds(agents, task, result, trace, rounds).0;
      ProposalsAreLegal(agents, task, rounds, reviewed, n - 1, tasks, initial);
    }
  }

  /** The flow stops in mid-task only where it is stopped or a proposal does not verify. */
  ghost predicate StopsAt(agents: Agents, task: Task, trace: Trace) {
    agents.stops(trace) || !Verified(agents.propose(trace, task), task)
  }

  lemma {:induction false} ProposalsEnd(agents: Agents, task: Task, rounds: nat, trace: Trace, n: nat)
    requires rounds > 0
    ensures var (after, ending) := Proposals(agents, task, rounds, trace, n);
            && (ending == ReviewAccepted ==> EndsAuthorized(after, task.id))
            && (n > 0 && ending in {ReviewRejected, ReviewExhausted} ==> EndsRefused(agents, after, task.id))
            && (ending == Stopped ==> StopsAt(agents, task, after))
    decreases n
  {
    if n > 0 && !agents.stops(trace) && Verified(agents.propose(trace, task), task) {
      RoundsEnd(agents, task, agents.propose(trace, task), trace, rounds);
      ProposalsEnd(agents, task, rounds, ReviewRounds(agents, task, agents.propose(trace, task), trace, rounds).0,
        n - 1);
    }
  }

  /** Between tasks: nothing is open, no task exceeds its reviews, and no task was reviewed early. */
  ghost predicate BetweenTasks(tasks: seq<Task>, initial: set<TaskId>, trace: Trace, bound: nat) {
    && Legal(tasks, initial, trace) && Open(trace) == {} && WithinBound(trace, bound)
    && forall t :: t !in Done(initial, trace) ==> ReviewCount(trace, t) == 0
  }

  ghost predicate Startable(task: Task, tasks: seq<Task>, done: set<TaskId>) {
    task in tasks && task.id !in done && task.dependsOn <= done
  }

  lemma ClaimIsLegal(task: Task, trace: Trace, tasks: seq<Task>, initial: set<TaskId>, bound: nat)
    requires BetweenTasks(tasks, initial, trace, bound) && Startable(task, tasks, Done(initial, trace))
    ensures var claimed := After(trace, Claimed(task.id));
            && Legal(tasks, initial, claimed) && Open(claimed) == {task.id}
               && Done(initial, claimed) == Done(initial, trace)
            && forall t :: ReviewCount(claimed, t) == ReviewCount(trace, t)
  {}

  /** The state in which a claimed task's proposals and reviews end. */
  ghost predicate SettledAfter(
    tasks: seq<Task>, initial: set<TaskId>, trace: Trace, settled: Trace, id: TaskId, bound: nat) {
    && Legal(tasks, initial, settled) && Open(settled) == {id} && Done(initial, settled) == Done(initial, trace)
    && WithinBound(settled, bound)
    && forall t :: t != id ==> ReviewCount(settled, t) == ReviewCount(trace, t)
  }

  lemma TaskSettles(agents: Agents, retries: nat, task: Task, trace: Trace, tasks: seq<Task>, initial: set<TaskId>)
    requires BetweenTasks(tasks, initial, trace, ReviewBound(retries)) && Startable(task, tasks, Done(initial, trace))
    ensures var (settled, ending) := Proposals(agents, task, retries + 1, After(trace, Claimed(task.id)), retries + 1);
            && SettledAfter(tasks, initial, trace, settled, task.id, ReviewBound(retries))
            && (ending == ReviewAccepted ==> EndsAuthorized(settled, task.id))
            && (ending in {ReviewRejected, ReviewExhausted} ==> EndsRefused(agents, settled, task.id))
            && (ending == Stopped ==> StopsAt(agents, task, settled))
  {
    var claimed := After(trace, Claimed(task.id));
    ClaimIsLegal(task, trace, tasks, initial, ReviewBound(retries));
    ProposalsAreLegal(agents, task, retries + 1, claimed, retries + 1, tasks, initial);
    ProposalsEnd(agents, task, retries + 1, claimed, retries + 1);
    RoundsMultiply(retries + 1, retries + 1);
    var settled := Proposals(agents, task, retries + 1, claimed, retries + 1).0;
    forall t ensures ReviewCount(settled, t) <= ReviewBound(retries) {
      assert ReviewCount(claimed, t) == ReviewCount(trace, t);
    }
  }

  lemma AcceptKeeps(tasks: seq<Task>, initial: set<TaskId>, trace: Trace, settled: Trace, id: TaskId, bound: nat)
    requires BetweenTasks(tasks, initial, trace, bound) && SettledAfter(tasks, initial, trace, settled, id, bound)
    requires EndsAuthorized(settled, id) && id !in Done(initial, trace)
    ensures var after := After(settled, Accepted(id, settled.event.result, settled.event.review));
            BetweenTasks(tasks, initial, after, bound) && Done(initial, after) == Done(initial, trace) + {id}
  {
    var after := After(settled, Accepted(id, settled.event.result, settled.event.review));
    forall t ensures ReviewCount(after, t) == ReviewCount(settled, t) {}
  }

  /** A task is accepted, or leaves a legal trace that says why not. */
  ghost predicate TaskEnds(
    agents: Agents, retries: nat, id: TaskId, trace: Trace, after: Trace, outcome: Option<Outcome>,
    tasks: seq<Task>, initial: set<TaskId>)
  {
    && Legal(tasks, initial, after) && WithinBound(after, ReviewBound(retries))
    && (outcome == None ==> BetweenTasks(tasks, initial, after, ReviewBound(retries))
                            && Done(initial, after) == Done(initial, trace) + {id})
    && (outcome.Some? ==> Done(initial, after) == Done(initial, trace)
                          && Explained(agents, tasks, after, outcome.value))
  }

  lemma TaskKeeps(agents: Agents, retries: nat, task: Task, trace: Trace, tasks: seq<Task>, initial: set<TaskId>)
    requires BetweenTasks(tasks, initial, trace, ReviewBound(retries)) && Startable(task, tasks, Done(initial, trace))
    ensures var (after, outcome) := RunTask(agents, retries, task, trace);
            TaskEnds(agents, retries, task.id, trace, after, outcome, tasks, initial)
  {
    if !agents.stops(trace) {
      TaskSettles(agents, retries, task, trace, tasks, initial);
      var (settled, ending) := Proposals(agents, task, retries + 1, After(trace, Claimed(task.id)), retries + 1);
      match ending
      case ReviewAccepted => AcceptKeeps(tasks, initial, trace, settled, task.id, ReviewBound(retries));
      case ReviewRejected =>
      case ReviewExhausted =>
      case Stopped => assert task in tasks && StopsAt(agents, task, settled);
    }
  }

  /** Why a task ended the flow: it was stopped or proposed something that does not verify, or its
      reviews ran out, the last of them refusing. */
  ghost predicate Explained(agents: Agents, tasks: seq<Task>, trace: Trace, outcome: Outcome) {
    match outcome
    case Report(_, _) => false
    case Interrupted =>
      || agents.stops(trace)
      || exists task :: task in tasks && Open(trace) == {task.id} && StopsAt(agents, task, trace)
    case TaskFailed(t) => Open(trace) == {t} && EndsRefused(agents, trace, t)
  }

  ghost predicate AllStartable(ready: seq<Task>, i: nat, tasks: seq<Task>, done: set<TaskId>) {
    forall j :: i <= j < |ready| ==> Startable(ready[j], tasks, done)
  }

  /** A pass accepts all of its ready tasks, or leaves one of them with a reason. */
  ghost predicate PassEnds(
    agents: Agents, retries: nat, ready: seq<Task>, i: nat, trace: Trace, after: Trace, outcome: Option<Outcome>,
    tasks: seq<Task>, initial: set<TaskId>)
    requires i <= |ready|
  {
    && Legal(tasks, initial, after) && WithinBound(after, ReviewBound(retries))
    && (outcome == None ==> BetweenTasks(tasks, initial, after, ReviewBound(retries))
                            && Done(initial, after) == Done(initial, trace) + Ids(ready[i..]))
    && (outcome.Some? ==> Explained(agents, tasks, after, outcome.value)
                          && exists j :: i <= j < |ready| && ready[j].id !in Done(initial, after))
  }

  lemma IdsFrom(ready: seq<Task>, i: nat)
    requires i < |ready|
    ensures Ids(ready[i..]) == {ready[i].id} + Ids(ready[i + 1..])
  {
    assert ready[i..] == [ready[i]] + ready[i + 1..];
  }

  lemma {:induction false} PassKeeps(
    agents: Agents, retries: nat, ready: seq<Task>, i: nat, trace: Trace, tasks: seq<Task>, initial: set<TaskId>)
    requires i <= |ready| && UniqueIds(ready) && BetweenTasks(tasks, initial, trace, ReviewBound(retries))
    requires AllStartable(ready, i, tasks, Done(initial, trace))
    ensures var (after, outcome) := RunAll(agents, retries, ready, i, trace);
            PassEnds(agents, retries, ready, i, trace, after, outcome, tasks, initial)
    decreases |ready| - i
  {
    if i < |ready| {
      TaskKeeps(agents, retries, ready[i], trace, tasks, initial);
      var (next, outcome) := RunTask(agents, retries, ready[i], trace);
      if outcome == None {
        IdsFrom(ready, i);
        PassKeeps(agents, retries, ready, i + 1, next, tasks, initial);
      } else {
        assert ready[i].id !in Done(initial, next);
      }
    }
  }

  /* ---------- main results ---------- */

  /** What a finished execution owes its caller. */
  ghost predicate Sound(
    agents: Agents, retries: nat, tasks: seq<Task>, initial: set<TaskId>, trace: Trace, outcome: Option<Outcome>) {
    && Legal(tasks, initial, trace)
    && WithinBound(trace, ReviewBound(retries))
    && (outcome == None <==> Ids(tasks) <= Done(initial, trace))
    && (outcome.Some? ==> Explained(agents, tasks, trace, outcome.value))
  }

  lemma ReadyIsStartable(tasks: seq<Task>, done: set<TaskId>, unfinished: TaskId)
    requires Executable(tasks) && unfinished in Ids(tasks) && unfinished !in done
    ensures var ready := ReadyOf(tasks, done, |tasks|);
            ready != [] && UniqueIds(ready) && AllStartable(ready, 0, tasks, done) && Ids(ready) <= Ids(tasks) - done
  {
    var ready := ReadyOf(tasks, done, |tasks|);
    SomeTaskIsReady(tasks, done, unfinished);
    assert tasks[..|tasks|] == tasks;
    ReadyIsUnique(tasks, done, |tasks|);
    var first :| first in tasks && IsReady(first, done);
    assert first in ready;
    forall j | 0 <= j < |ready| ensures Startable(ready[j], tasks, done) { assert ready[j] in ready; }
  }

  /** A pass over an unfinished plan finds a ready task, and accepts all that are ready or says why not. */
  lemma ReadyPass(
    agents: Agents, retries: nat, tasks: seq<Task>, completed: set<TaskId>, trace: Trace, initial: set<TaskId>)
    requires Executable(tasks) && completed == Done(initial, trace) && !(Ids(tasks) <= completed)
    requires BetweenTasks(tasks, initial, trace, ReviewBound(retries))
    ensures var ready := ReadyOf(tasks, completed, |tasks|);
            var (after, outcome) := RunAll(agents, retries, ready, 0, trace);
            && ready != [] && Ids(ready) <= Ids(tasks) - completed && ready[0].id in Ids(ready)
            && Legal(tasks, initial, after) && WithinBound(after, ReviewBound(retries))
            && (outcome == None ==> BetweenTasks(tasks, initial, after, ReviewBound(retries))
                                    && Done(initial, after) == completed + Ids(ready))
            && (outcome.Some? ==> Explained(agents, tasks, after, outcome.value)
                                  && !(Ids(tasks) <= Done(initial, after)))
  {
    var unfinished: TaskId :| unfinished in Ids(tasks) && unfinished !in completed;
    ReadyIsStartable(tasks, completed, unfinished);
    var ready := ReadyOf(tasks, completed, |tasks|);
    PassKeeps(agents, retries, ready, 0, trace, tasks, initial);
    assert ready[0..] == ready;
    forall j | 0 <= j < |ready| ensures ready[j].id in Ids(tasks) { assert Startable(ready[j], tasks, completed); }
  }

  /** On an executable plan, from any set of tasks accepted before and for any answers, the loop
      ends with every task accepted, or with a reason why not. */
  lemma {:induction false} ExecutionIsSound(
    agents: Agents, retries: nat, tasks: seq<Task>, completed: set<TaskId>, trace: Trace, initial: set<TaskId>)
    requires Executable(tasks) && completed == Done(initial, trace)
    requires BetweenTasks(tasks, initial, trace, ReviewBound(retries))
    ensures var (after, outcome) := Execution(agents, retries, tasks, completed, trace);
            Sound(agents, retries, tasks, initial, after, outcome)
    decreases Ids(tasks) - completed
  {
    if !(Ids(tasks) <= completed) {
      ReadyPass(agents, retries, tasks, completed, trace, initial);
      var ready := ReadyOf(tasks, completed, |tasks|);
      var (next, outcome) := RunAll(agents, retries, ready, 0, trace);
      if outcome == None { ExecutionIsSound(agents, retries, tasks, completed + Ids(ready), next, initial); }
    }
  }

  /** Nothing stops the flow, proposals verify and reviews authorize. */
  ghost predicate Willing(agents: Agents) {
    && (forall t: Trace :: !agents.stops(t))
    && (forall t: Trace, task: Task :: Verified(agents.propose(t, task), task))
    && (forall t: Trace, r: TaskResult :: Authorizes(agents.review(t, r), r))
  }

  /** With willing agents every executable plan is completed. */
  lemma WillingAgentsFinish(agents: Agents, retries: nat, tasks: seq<Task>, initial: set<TaskId>)
    requires Executable(tasks) && Willing(agents)
    ensures Execution(agents, retries, tasks, initial, Start).1 == None
  {
    ExecutionIsSound(agents, retries, tasks, initial, Start, initial);
  }

  /* ---------- the loops as the flow runs them ---------- */

  method ReviewResult(agents: Agents, task: Task, result: TaskResult, retries: nat, trace: Trace)
    returns (trace': Trace, ending: Ending)
    ensures (trace', ending) == ReviewRounds(agents, task, result, trace, retries + 1)
  {
    trace' := trace;
    for attempt := 0 to retries + 1
      invariant ReviewRounds(agents, task, result, trace', retries + 1 - attempt)
                == ReviewRounds(agents, task, result, trace, retries + 1)
    {
      if agents.stops(trace') { return trace', Stopped; }
      var review := agents.review(trace', result);
      trace' := After(trace', Reviewed(task.id, result, review));
      if agents.stops(trace') { return trace', Stopped; }
      if !review.accepted { return trace', ReviewRejected; }
      if Authorizes(review, result) { return trace', ReviewAccepted; }
    }
    return trace', ReviewExhausted;
  }

  method SettleTask(agents: Agents, task: Task, retries: nat, trace: Trace) returns (trace': Trace, ending: Ending)
    ensures (trace', ending) == Proposals(agents, task, retries + 1, trace, retries + 1)
  {
    trace' := trace;
    for sequence := 0 to retries + 1
      invariant Proposals(agents, task, retries + 1, trace', retries + 1 - sequence)
                == Proposals(agents, task, retries + 1, trace, retries + 1)
    {
      var proposed := agents.propose(trace', task);
      if agents.stops(trace') || !Verified(proposed, task) { return trace', Stopped; }
      trace', ending := ReviewResult(agents, task, proposed, retries, trace');
      if ending != ReviewRejected { return trace', ending; }
    }
    return trace', ReviewRejected;
  }

  method ReadyTasks(tasks: seq<Task>, completed: set<TaskId>) returns (ready: seq<Task>)
    ensures ready == ReadyOf(tasks, completed, |tasks|)
  {
    ready := [];
    for i := 0 to |tasks|
      invariant ready == ReadyOf(tasks, completed, i)
    {
      if tasks[i].id !in completed && tasks[i].dependsOn <= completed { ready := ready + [tasks[i]]; }
    }
  }

  lemma {:induction false} RoundsAcceptNothing(agents: Agents, task: Task, result: TaskResult, trace: Trace, n: nat)
    ensures Results(ReviewRounds(agents, task, result, trace, n).0) == Results(trace)
    ensures Reviews(ReviewRounds(agents, task, result, trace, n).0) == Reviews(trace)
    decreases n
  {
    if n > 0 {
      RoundsAcceptNothing(agents, task, result, After(trace, Reviewed(task.id, result, agents.review(trace, result))),
        n - 1);
    }
  }

  lemma {:induction false} ProposalsAcceptNothing(agents: Agents, task: Task, rounds: nat, trace: Trace, n: nat)
    ensures Results(Proposals(agents, task, rounds, trace, n).0) == Results(trace)
    ensures Reviews(Proposals(agents, task, rounds, trace, n).0) == Reviews(trace)
    decreases n
  {
    if n > 0 {
      RoundsAcceptNothing(agents, task, agents.propose(trace, task), trace, rounds);
      ProposalsAcceptNothing(agents, task, rounds,
        ReviewRounds(agents, task, agents.propose(trace, task), trace, rounds).0, n - 1);
    }
  }

  /** One pass over the ready tasks, with what it accepted. */
  method RunReady(agents: Agents, retries: nat, ready: seq<Task>, trace: Trace)
    returns (trace': Trace, results: seq<TaskResult>, reviews: seq<Review>, outcome: Option<Outcome>)
    ensures (trace', outcome) == RunAll(agents, retries, ready, 0, trace)
    ensures outcome == None ==>
              Results(trace') == Results(trace) + results && Reviews(trace') == Reviews(trace) + reviews
  {
    trace', results, reviews := trace, [], [];
    for i := 0 to |ready|
      invariant RunAll(agents, retries, ready, i, trace') == RunAll(agents, retries, ready, 0, trace)
      invariant Results(trace') == Results(trace) + results && Reviews(trace') == Reviews(trace) + reviews
    {
      if agents.stops(trace') { return trace', results, reviews, Some(Interrupted); }
      var claimed := After(trace', Claimed(ready[i].id));
      var settled, ending := SettleTask(agents, ready[i], retries, claimed);
      if ending == Stopped { return settled, results, reviews, Some(Interrupted); }
      ProposalsEnd(agents, ready[i], retries + 1, claimed, retries + 1);
      if ending != ReviewAccepted { return settled, results, reviews, Some(TaskFailed(ready[i].id)); }
      ProposalsAcceptNothing(agents, ready[i], retries + 1, claimed, retries + 1);
      var result, review := settled.event.result, settled.event.review;
      trace' := After(settled, Accepted(ready[i].id, result, review));
      results, reviews := results + [result], reviews + [review];
    }
    return trace', results, reviews, None;
  }

  lemma Appended<T>(a: seq<T>, b: seq<T>, c: seq<T>)
    ensures a + b + c == a + (b + c)
  {}

  lemma ExecutionUnfolds(agents: Agents, retries: nat, tasks: seq<Task>, completed: set<TaskId>, trace: Trace)
    requires Executable(tasks) && !(Ids(tasks) <= completed)
    ensures var ready := ReadyOf(tasks, completed, |tasks|);
            var (next, outcome) := RunAll(agents, retries, ready, 0, trace);
            && Execution(agents, retries, tasks, completed, trace)
                 == (if outcome.Some? then (next, outcome)
                   else Execution(agents, retries, tasks, completed + Ids(ready), next))
            && Ids(tasks) - (completed + Ids(ready)) < Ids(tasks) - completed
  {
    var unfinished: TaskId :| unfinished in Ids(tasks) && unfinished !in completed;
    ReadyIsStartable(tasks, completed, unfinished);
    var ready := ReadyOf(tasks, completed, |tasks|);
    assert ready[0].id in Ids(ready);
  }

  /** The whole loop, from any set of results accepted before: it ends on every executable plan, and
      reports all accepted results and reviews in order when every task is accepted. */
  method ExecutePlan(
    agents: Agents, tasks: seq<Task>, retries: nat, earlier: seq<TaskResult>, earlierReviews: seq<Review>)
    returns (trace: Trace, outcome: Outcome)
    requires Executable(tasks)
    ensures agents.stops(Start) ==> (trace, outcome) == (Start, Interrupted)
    ensures !agents.stops(Start) ==>
              && trace == Execution(agents, retries, tasks, TasksOf(earlier), Start).0
              && outcome == match Execution(agents, retries, tasks, TasksOf(earlier), Start).1
                            case Some(other) => other
                            case None => Report(earlier + Results(trace), earlierReviews + Reviews(trace))
  {
    if agents.stops(Start) { return Start, Interrupted; }
    var completed := TasksOf(earlier);
    var results, reviews := earlier, earlierReviews;
    trace := Start;
    ghost var whole := Execution(agents, retries, tasks, completed, Start);
    while !(Ids(tasks) <= completed)
      invariant Execution(agents, retries, tasks, completed, trace) == whole
      invariant results == earlier + Results(trace) && reviews == earlierReviews + Reviews(trace)
      decreases Ids(tasks) - completed
    {
      ExecutionUnfolds(agents, retries, tasks, completed, trace);
      var ready := ReadyTasks(tasks, completed);
      var next, added, addedReviews, ended := RunReady(agents, retries, ready, trace);
      if ended.Some? { return next, ended.value; }
      Appended(earlier, Results(trace), added);
      Appended(earlierReviews, Reviews(trace), addedReviews);
      trace, results, reviews := next, results + added, reviews + addedReviews;
      completed := completed + Ids(ready);
    }
    return trace, Report(results, reviews);
  }

  function TasksOf(results: seq<TaskResult>): set<TaskId> { set r | r in results :: r.task }
}
