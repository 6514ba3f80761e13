/** What the execution loop does on a plan whose dependencies have a cycle. */
module PlanCycles {
  import opened Outcomes
  import opened PlanGraph
  import opened PlanExecution

  /** The loop comes to a pass with pending tasks and none of them ready, and so never ends. */
  predicate Spins(agents: Agents, retries: nat, tasks: seq<Task>, completed: set<TaskId>, trace: Trace)
    decreases Ids(tasks) - completed
  {
    var ready := ReadyOf(tasks, completed, |tasks|);
    && !(Ids(tasks) <= completed)
    && (ready == [] ||
        (assert ready[0] in tasks[..|tasks|] && ready[0].id in Ids(tasks) - completed && ready[0].id in Ids(ready);
         var (next, outcome) := RunAll(agents, retries, ready, 0, trace);
         outcome == None && Spins(agents, retries, tasks, completed + Ids(ready), next)))
  }

  lemma {:induction false} WillingPass(agents: Agents, retries: nat, ready: seq<Task>, i: nat, trace: Trace)
    requires Willing(agents) && i <= |ready|
    ensures RunAll(agents, retries, ready, i, trace).1 == None
    decreases |ready| - i
  {
    if i < |ready| {
      WillingTask(agents, retries, ready[i], trace);
      WillingPass(agents, retries, ready, i + 1, RunTask(agents, retries, ready[i], trace).0);
    }
  }

  lemma WillingTask(agents: Agents, retries: nat, task: Task, trace: Trace)
    requires Willing(agents)
    ensures RunTask(agents, retries, task, trace).1 == None
  {
    var claimed := After(trace, Claimed(task.id));
    var result := agents.propose(claimed, task);
    assert ReviewRounds(agents, task, result, claimed, retries + 1).1 == ReviewAccepted;
    assert Proposals(agents, task, retries + 1, claimed, retries + 1)
           == ReviewRounds(agents, task, result, claimed, retries + 1);
  }

  lemma StuckIsNotReady(tasks: seq<Task>, completed: set<TaskId>, t: Task, s: set<TaskId>)
    requires UniqueIds(tasks) && Stuck(DependenciesOf(tasks), s) && s !! completed && t in tasks && t.id in s
    ensures !IsReady(t, completed)
  {
    var d :| d in DependenciesOf(tasks)[t.id] * s;
    assert d in t.dependsOn;
  }

  lemma ReadyAvoidsStuck(tasks: seq<Task>, completed: set<TaskId>, s: set<TaskId>)
    requires UniqueIds(tasks) && Stuck(DependenciesOf(tasks), s) && s !! completed
    ensures Ids(ReadyOf(tasks, completed, |tasks|)) !! s
    ensures Ids(ReadyOf(tasks, completed, |tasks|)) <= Ids(tasks) - completed
  {
    var ready := ReadyOf(tasks, completed, |tasks|);
    assert tasks[..|tasks|] == tasks;
    forall t | t in ready ensures t.id !in s && t.id in Ids(tasks) - completed {
      if t.id in s { StuckIsNotReady(tasks, completed, t, s); }
    }
  }

  /** Tasks that wait for each other are never ready, so the loop cannot finish them. */
  lemma {:induction false} StuckTasksSpin(
    agents: Agents, retries: nat, tasks: seq<Task>, completed: set<TaskId>, trace: Trace, s: set<TaskId>)
    requires UniqueIds(tasks) && Willing(agents) && Stuck(DependenciesOf(tasks), s) && s != {} && s !! completed
    ensures Spins(agents, retries, tasks, completed, trace)
    decreases Ids(tasks) - completed
  {
    var ready := ReadyOf(tasks, completed, |tasks|);
    StuckIsPending(tasks, completed, s);
    if ready != [] {
      ReadyAvoidsStuck(tasks, completed, s);
      assert ready[0].id in Ids(ready);
      WillingPass(agents, retries, ready, 0, trace);
      var next := RunAll(agents, retries, ready, 0, trace).0;
      StuckTasksSpin(agents, retries, tasks, completed + Ids(ready), next, s);
      SpinsOn(agents, retries, tasks, completed, trace, ready, next);
    }
  }

  lemma StuckIsPending(tasks: seq<Task>, completed: set<TaskId>, s: set<TaskId>)
    requires UniqueIds(tasks) && Stuck(DependenciesOf(tasks), s) && s != {} && s !! completed
    ensures !(Ids(tasks) <= completed)
  {
    var stuck :| stuck in s;
    assert stuck in Ids(tasks) && stuck !in completed;
  }

  lemma SpinsOn(
    agents: Agents, retries: nat, tasks: seq<Task>, completed: set<TaskId>, trace: Trace, ready: seq<Task>, next: Trace)
    requires !(Ids(tasks) <= completed) && ready == ReadyOf(tasks, completed, |tasks|)
    requires RunAll(agents, retries, ready, 0, trace) == (next, None)
    requires Spins(agents, retries, tasks, completed + Ids(ready), next)
    ensures Spins(agents, retries, tasks, completed, trace)
  {}

  lemma {:induction false} ExecutablePlansDoNotSpin(
    agents: Agents, retries: nat, tasks: seq<Task>, completed: set<TaskId>, trace: Trace)
    requires Executable(tasks)
    ensures !Spins(agents, retries, tasks, completed, trace)
    decreases Ids(tasks) - completed
  {
    if !(Ids(tasks) <= completed) {
      var unfinished: TaskId :| unfinished in Ids(tasks) && unfinished !in completed;
      ReadyIsStartable(tasks, completed, unfinished);
      var ready := ReadyOf(tasks, completed, |tasks|);
      assert ready[0].id in Ids(ready);
      ExecutablePlansDoNotSpin(agents, retries, tasks, completed + Ids(ready),
        RunAll(agents, retries, ready, 0, trace).0);
    }
  }

  /** From the start of a plan, with agents that accept everything, the loop spins for ever exactly when the
      dependencies have a cycle; otherwise it completes the plan. */
  lemma LoopSpinsExactlyOnCycles(agents: Agents, retries: nat, tasks: seq<Task>)
    requires UniqueIds(tasks) && KnownDependencies(tasks) && Willing(agents)
    ensures Spins(agents, retries, tasks, {}, Start) <==> !Acyclic(DependenciesOf(tasks))
    ensures Acyclic(DependenciesOf(tasks)) ==> Execution(agents, retries, tasks, {}, Start).1 == None
  {
    if Acyclic(DependenciesOf(tasks)) {
      ExecutablePlansDoNotSpin(agents, retries, tasks, {}, Start);
      WillingAgentsFinish(agents, retries, tasks, {});
    } else {
      AcyclicMeansSomeTaskIsReady(DependenciesOf(tasks));
      var s :| Stuck(DependenciesOf(tasks), s) && s != {};
      StuckTasksSpin(agents, retries, tasks, {}, Start, s);
    }
  }
}
