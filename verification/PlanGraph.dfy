/** Task dependencies: what a cycle is, and how the plan validator finds one. */
module PlanGraph {

  /** Task identifiers are only ever compared. */
  type TaskId = nat

  type Dependencies = map<TaskId, set<TaskId>>

  /** Each element depends on the next, and all of them are tasks. */
  ghost predicate IsWalk(deps: Dependencies, p: seq<TaskId>) {
    && (forall i :: 0 <= i < |p| ==> p[i] in deps)
    && forall i :: 0 <= i < |p| - 1 ==> p[i + 1] in deps[p[i]]
  }

  ghost function Nodes(p: seq<TaskId>): set<TaskId> { set t | t in p }

  ghost predicate IsCycle(deps: Dependencies, p: seq<TaskId>) {
    |p| >= 2 && p[0] == p[|p| - 1] && IsWalk(deps, p)
  }

  ghost predicate Acyclic(deps: Dependencies) {
    forall p :: !IsCycle(deps, p)
  }

  /** Every task of the set waits for another task of the set. */
  ghost predicate Stuck(deps: Dependencies, s: set<TaskId>) {
    s <= deps.Keys && forall t :: t in s ==> deps[t] * s != {}
  }

  /* ---------- the pigeonhole principle ---------- */

  lemma {:induction false} Pigeonhole(p: seq<TaskId>, s: set<TaskId>)
    requires forall i :: 0 <= i < |p| ==> p[i] in s
    requires |p| > |s|
    ensures exists i, j :: 0 <= i < j < |p| && p[i] == p[j]
    decreases |s|
  {
    var last := p[|p| - 1];
    var init := p[..|p| - 1];
    if i :| 0 <= i < |init| && init[i] == last {
      assert p[i] == p[|p| - 1];
    } else {
      forall i | 0 <= i < |init| ensures init[i] in s - {last} {}
      Pigeonhole(init, s - {last});
      var i, j :| 0 <= i < j < |init| && init[i] == init[j];
      assert p[i] == p[j];
    }
  }

  /** In a stuck set one can walk for ever. */
  lemma {:induction false} LongWalk(deps: Dependencies, s: set<TaskId>, n: nat) returns (p: seq<TaskId>)
    requires Stuck(deps, s) && s != {}
    ensures |p| == n + 1 && IsWalk(deps, p) && forall i :: 0 <= i < |p| ==> p[i] in s
  {
    if n == 0 {
      var t :| t in s;
      p := [t];
    } else {
      var q := LongWalk(deps, s, n - 1);
      assert q[n - 1] in s;
      var d :| d in deps[q[n - 1]] * s;
      p := q + [d];
    }
  }

  lemma WalkSlice(deps: Dependencies, p: seq<TaskId>, i: nat, j: nat)
    requires IsWalk(deps, p) && i <= j < |p|
    ensures IsWalk(deps, p[i..j + 1])
  {
    var q := p[i..j + 1];
    forall k | 0 <= k < |q| - 1 ensures q[k + 1] in deps[q[k]] {
      assert p[i + k + 1] in deps[p[i + k]];
    }
  }

  /** A non-empty stuck set holds a cycle. */
  lemma StuckHasCycle(deps: Dependencies, s: set<TaskId>)
    requires Stuck(deps, s) && s != {}
    ensures !Acyclic(deps)
  {
    var p := LongWalk(deps, s, |s|);
    Pigeonhole(p, s);
    var i, j :| 0 <= i < j < |p| && p[i] == p[j];
    WalkSlice(deps, p, i, j);
    assert IsCycle(deps, p[i..j + 1]);
  }

  /** The elements of a cycle are a stuck set. */
  lemma CycleIsStuck(deps: Dependencies, p: seq<TaskId>)
    requires IsCycle(deps, p)
    ensures Stuck(deps, Nodes(p))
  {
    var s := Nodes(p);
    forall t | t in s ensures deps[t] * s != {} {
      var i :| 0 <= i < |p| && p[i] == t;
      var next := if i < |p| - 1 then i + 1 else 1;
      assert p[next - 1 + 1] in deps[p[next - 1]];
      assert p[next] in deps[t] * s;
    }
  }

  /** Some task of every non-empty set of tasks can start exactly when there is no cycle. */
  lemma AcyclicMeansSomeTaskIsReady(deps: Dependencies)
    ensures Acyclic(deps) <==> forall s :: Stuck(deps, s) ==> s == {}
  {
    if p :| IsCycle(deps, p) {
      CycleIsStuck(deps, p);
      assert p[0] in Nodes(p);
    } else {
      forall s | Stuck(deps, s) ensures s == {} {
        if s != {} { StuckHasCycle(deps, s); }
      }
    }
  }

  /** A cycle survives every round that removes ready tasks. */
  lemma CycleRemains(deps: Dependencies, remaining: set<TaskId>, ready: set<TaskId>, p: seq<TaskId>)
    requires IsCycle(deps, p) && Nodes(p) <= remaining
    requires forall t :: t in ready ==> t in deps && deps[t] * remaining == {}
    ensures Nodes(p) <= remaining - ready
  {
    CycleIsStuck(deps, p);
    var s := Nodes(p);
    forall t | t in s ensures t !in ready {
      var d :| d in deps[t] * s;
      assert d in deps[t] * remaining;
    }
  }

  lemma NowhereToGo(deps: Dependencies)
    requires forall p :: IsCycle(deps, p) ==> Nodes(p) <= {}
    ensures Acyclic(deps)
  {
    forall p ensures !IsCycle(deps, p) {
      if |p| >= 2 { assert p[0] in Nodes(p); }
    }
  }

  /** The validator's elimination loop: it reports a cycle exactly when there is one, whatever
      unknown tasks the dependencies mention. */
  method HasCycle(deps: Dependencies) returns (cyclic: bool)
    ensures cyclic <==> !Acyclic(deps)
  {
    var remaining := deps.Keys;
    while remaining != {}
      invariant remaining <= deps.Keys
      invariant forall p :: IsCycle(deps, p) ==> Nodes(p) <= remaining
      decreases remaining
    {
      var ready := set t | t in remaining && deps[t] * remaining == {};
      if ready == {} {
        forall t | t in remaining ensures deps[t] * remaining != {} { assert t !in ready; }
        StuckHasCycle(deps, remaining);
        return true;
      }
      forall p | IsCycle(deps, p) ensures Nodes(p) <= remaining - ready { CycleRemains(deps, remaining, ready, p); }
      remaining := remaining - ready;
    }
    NowhereToGo(deps);
    return false;
  }
}
