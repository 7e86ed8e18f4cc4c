/** The full IDs of the tasks that the scheduler executes. Each task's outputs and saved state live in a
    directory named by its full ID, so tasks must not share one. */
module SchedulerIds {
  import opened Names
  import opened Options
  import opened Tasks
  import opened Scheduler
  import opened SchedulerTotals
  import opened SchedulerOrder

  /** No ID is another's, or another's prefix, segment by segment. */
  predicate PrefixFree(jobs: seq<Job>) {
    forall i, j | 0 <= i < |jobs| && 0 <= j < |jobs| && i != j ::
      !(Segs(jobs[i].task.id) <= Segs(jobs[j].task.id))
  }

  /** The same for the followups of every job below that succeeds. */
  predicate DeepPrefixFree(jobs: seq<Job>) {
    PrefixFree(jobs) && forall j | j in jobs && j.error.None? :: DeepPrefixFree(j.followups)
  }

  predicate DistinctIds(tasks: seq<Task>) {
    forall i, j | 0 <= i < j < |tasks| :: tasks[i].id != tasks[j].id
  }

  /** The segments a job's ID starts with. */
  function Stem(parent: Option<string>): seq<string> {
    if parent.None? then [] else Segs(parent.value)
  }

  lemma SegsOfFull(parent: Option<string>, job: Job)
    ensures Segs(Full(parent, job).id) == Stem(parent) + Segs(job.task.id)
  {
    if parent.Some? {
      SegsOfChild(parent.value, [job.task.id]);
      assert AllSegs([job.task.id]) == Segs(job.task.id);
    }
  }

  /** Every task executed below a job has the job's full ID as a prefix, properly so but for the job's own
      task. */
  lemma {:induction false} IdsBelow(task: Task, job: Job, t: Task)
    requires t in Jobs(task, job)
    ensures Segs(task.id) <= Segs(t.id)
    ensures t in JobsAfter(task, job) ==> Segs(task.id) < Segs(t.id)
    decreases job, 1
  {
    if t in JobsAfter(task, job) {
      var i := IdsBelowAll(Some(task.id), job.followups, t);
      SegsOfFull(Some(task.id), job.followups[i]);
    }
  }

  lemma JobsSplit(parent: Option<string>, jobs: seq<Job>, t: Task)
    requires t in JobsOfAll(parent, jobs)
    ensures jobs != [] && (t in Jobs(Full(parent, jobs[0]), jobs[0]) || t in JobsOfAll(parent, jobs[1..]))
  {}

  lemma {:induction false} IdsBelowAll(parent: Option<string>, jobs: seq<Job>, t: Task) returns (i: nat)
    requires t in JobsOfAll(parent, jobs)
    ensures i < |jobs| && t in Jobs(Full(parent, jobs[i]), jobs[i])
    ensures Segs(Full(parent, jobs[i]).id) <= Segs(t.id)
    decreases jobs, 2
  {
    JobsSplit(parent, jobs, t);
    if t in JobsOfAll(parent, jobs[1..]) {
      i := IdsBelowRest(parent, jobs, t);
    } else {
      i := 0;
      IdsBelow(Full(parent, jobs[0]), jobs[0], t);
    }
  }

  lemma {:induction false} IdsBelowRest(parent: Option<string>, jobs: seq<Job>, t: Task) returns (i: nat)
    requires jobs != [] && t in JobsOfAll(parent, jobs[1..])
    ensures i < |jobs| && t in Jobs(Full(parent, jobs[i]), jobs[i])
    ensures Segs(Full(parent, jobs[i]).id) <= Segs(t.id)
    decreases jobs, 1
  {
    var rest := jobs[1..];
    var j := IdsBelowAll(parent, rest, t);
    i := j + 1;
    assert rest[j] == jobs[i];
  }

  /* Chains of followups */

  /** Where a chain of followup indices leads from a task, through jobs that succeed. */
  function At(task: Task, job: Job, path: seq<nat>): Option<Node>
    decreases |path|
  {
    if path == [] then Some((task, job))
    else if job.error.Some? || path[0] >= |job.followups| then None
    else
      var f := job.followups[path[0]];
      At(Full(Some(task.id), f), f, path[1..])
  }

  /** The segments of the relative IDs along the chain, in order. */
  function RelativeSegs(job: Job, path: seq<nat>): seq<string>
    decreases |path|
  {
    if path == [] || path[0] >= |job.followups| then []
    else
      var f := job.followups[path[0]];
      Segs(f.task.id) + RelativeSegs(f, path[1..])
  }

  predicate EndsAt(task: Task, job: Job, path: seq<nat>, t: Task) {
    At(task, job, path).Some? && At(task, job, path).value.0 == t
  }

  /** A task's full ID is the first one's followed by the relative IDs along the chain, each once. */
  lemma {:induction false} ChainSpells(task: Task, job: Job, path: seq<nat>)
    requires At(task, job, path).Some?
    ensures Segs(At(task, job, path).value.0.id) == Segs(task.id) + RelativeSegs(job, path)
    decreases |path|
  {
    if path != [] {
      var f := job.followups[path[0]];
      ChainSpells(Full(Some(task.id), f), f, path[1..]);
      SegsOfFull(Some(task.id), f);
    }
  }

  lemma {:induction false} ChainIsExecuted(task: Task, job: Job, path: seq<nat>)
    requires At(task, job, path).Some?
    ensures At(task, job, path).value.0 in Jobs(task, job)
    decreases |path|
  {
    if path != [] {
      var f := job.followups[path[0]];
      ChainIsExecuted(Full(Some(task.id), f), f, path[1..]);
      JobsOfOne(Some(task.id), job.followups, path[0]);
    }
  }

  lemma {:induction false} JobsOfOne(parent: Option<string>, jobs: seq<Job>, i: nat)
    requires i < |jobs|
    ensures forall t | t in Jobs(Full(parent, jobs[i]), jobs[i]) :: t in JobsOfAll(parent, jobs)
  {
    if i > 0 {
      JobsOfOne(parent, jobs[1..], i - 1);
      assert jobs[1..][i - 1] == jobs[i];
    }
  }

  lemma {:induction false} ChainTo(task: Task, job: Job, t: Task) returns (path: seq<nat>)
    requires t in Jobs(task, job)
    ensures EndsAt(task, job, path, t)
    decreases job
  {
    if t == task {
      path := [];
    } else {
      var i := IdsBelowAll(Some(task.id), job.followups, t);
      var f := job.followups[i];
      var rest := ChainTo(Full(Some(task.id), f), f, t);
      path := [i] + rest;
      assert path[1..] == rest;
    }
  }

  /** The tasks executed below a job are exactly those at the ends of its chains. */
  lemma ExecutedIffChain(task: Task, job: Job, t: Task)
    ensures t in Jobs(task, job) <==> exists path: seq<nat> :: EndsAt(task, job, path, t)
  {
    if t in Jobs(task, job) {
      var path := ChainTo(task, job, t);
    }
    if path: seq<nat> :| EndsAt(task, job, path, t) { ChainIsExecuted(task, job, path); }
  }

  /** Some root has a chain that ends at the task, its ID spells the root's and those along the chain, and it is
      otherwise as it was emitted. */
  ghost predicate OnChain(roots: seq<Job>, t: Task) {
    exists r: nat, path: seq<nat> :: r < |roots| && ChainFrom(roots[r], path, t)
  }

  predicate ChainFrom(root: Job, path: seq<nat>, t: Task) {
    && EndsAt(root.task, root, path, t)
    && AsEmitted(At(root.task, root, path).value)
    && Segs(t.id) == Segs(root.task.id) + RelativeSegs(root, path)
  }

  lemma {:induction false} ChainAsEmitted(task: Task, job: Job, path: seq<nat>)
    requires At(task, job, path).Some? && AsEmitted((task, job))
    ensures AsEmitted(At(task, job, path).value)
    decreases |path|
  {
    if path != [] {
      var f := job.followups[path[0]];
      ChainAsEmitted(Full(Some(task.id), f), f, path[1..]);
    }
  }

  lemma ExecutedIffOnChain(roots: seq<Job>, t: Task)
    ensures t in JobsOfAll(None, roots) <==> OnChain(roots, t)
  {
    if t in JobsOfAll(None, roots) {
      var r := IdsBelowAll(None, roots, t);
      var path := ChainTo(roots[r].task, roots[r], t);
      ChainSpells(roots[r].task, roots[r], path);
      ChainAsEmitted(roots[r].task, roots[r], path);
      assert ChainFrom(roots[r], path, t);
    }
    if r: nat, path: seq<nat> :| r < |roots| && ChainFrom(roots[r], path, t) {
      ChainIsExecuted(roots[r].task, roots[r], path);
      JobsOfOne(None, roots, r);
    }
  }

  /** Every task called in a run of `ExecuteMany`, over or not, is at the end of a chain from a root, with the
      full ID that spells it and all else as emitted; and when the run is over every such task has been called. */
  lemma CallsAreChains(limit: int, roots: seq<Job>, schedule: seq<nat>, t: Task)
    requires Feasible(StartMany(limit, roots), schedule)
    ensures var s := Run(StartMany(limit, roots), schedule);
      && (t in s.calls ==> OnChain(roots, t))
      && (Final(s) && OnChain(roots, t) ==> t in s.calls)
  {
    var s := Run(StartMany(limit, roots), schedule);
    ExecutedIffOnChain(roots, t);
    if t in s.calls {
      CallsFollowTheirParents(limit, roots, schedule);
      var i :| 0 <= i < |s.calls| && s.calls[i] == t;
      assert CallCaused(roots, s.calls, i);
      var n :| n in NodesOfAll(None, roots) && n.0 == t;
      TaskOfNode(None, roots, n);
    }
    if Final(s) {
      ExecuteManyAccounts(limit, roots, schedule);
      assert t in s.calls <==> t in multiset(s.calls);
      assert t in JobsOfAll(None, roots) <==> t in multiset(JobsOfAll(None, roots));
    }
  }

  /* Distinct IDs */

  lemma DistinctConcat(a: seq<Task>, b: seq<Task>)
    requires DistinctIds(a) && DistinctIds(b)
    requires forall t, u | t in a && u in b :: t.id != u.id
    ensures DistinctIds(a + b)
  {
    forall i, j | 0 <= i < j < |a + b| ensures (a + b)[i].id != (a + b)[j].id {
      if i < |a| <= j { assert a[i] in a && b[j - |a|] in b; }
    }
  }

  lemma Apart(p: seq<string>, x: seq<string>, y: seq<string>, a: seq<string>, b: seq<string>)
    requires p + x <= a && p + y <= b && !(x <= y) && !(y <= x)
    ensures a != b
  {
    if |x| <= |y| {
      var i :| 0 <= i < |x| && x[i] != y[i];
      assert a[|p| + i] == x[i] && b[|p| + i] == y[i];
    } else {
      var i :| 0 <= i < |y| && x[i] != y[i];
      assert a[|p| + i] == x[i] && b[|p| + i] == y[i];
    }
  }

  lemma {:induction false} IdsDistinct(task: Task, job: Job)
    requires job.error.None? ==> DeepPrefixFree(job.followups)
    ensures DistinctIds(Jobs(task, job))
    decreases job, 0
  {
    if job.error.None? { IdsDistinctAll(Some(task.id), job.followups); }
    forall u | u in JobsAfter(task, job) ensures task.id != u.id {
      assert u in Jobs(task, job);
      IdsBelow(task, job, u);
    }
    DistinctConcat([task], JobsAfter(task, job));
  }

  /** If the IDs of the roots, and those of each task's followups, are prefix-free among themselves, then
      no two tasks executed have the same full ID. */
  lemma {:induction false} IdsDistinctAll(parent: Option<string>, jobs: seq<Job>)
    requires DeepPrefixFree(jobs)
    ensures DistinctIds(JobsOfAll(parent, jobs))
    decreases jobs, 1
  {
    if jobs != [] {
      var first, rest := jobs[0], jobs[1..];
      assert first in jobs && forall j | j in rest :: j in jobs;
      assert forall i | 0 <= i < |rest| :: rest[i] == jobs[i + 1];
      IdsDistinct(Full(parent, first), first);
      IdsDistinctAll(parent, rest);
      forall t, u | t in Jobs(Full(parent, first), first) && u in JobsOfAll(parent, rest) ensures t.id != u.id {
        IdsBelow(Full(parent, first), first, t);
        var i := IdsBelowAll(parent, rest, u);
        SegsOfFull(parent, first);
        SegsOfFull(parent, rest[i]);
        assert rest[i] == jobs[i + 1];
        Apart(Stem(parent), Segs(first.task.id), Segs(rest[i].task.id), Segs(t.id), Segs(u.id));
      }
      DistinctConcat(Jobs(Full(parent, first), first), JobsOfAll(parent, rest));
    }
  }

  /** In every completed run of `ExecuteMany` the executed tasks have distinct full IDs. */
  lemma ExecutedIdsDistinct(limit: int, roots: seq<Job>, schedule: seq<nat>)
    requires DeepPrefixFree(roots)
    requires Feasible(StartMany(limit, roots), schedule) && Final(Run(StartMany(limit, roots), schedule))
    ensures DistinctIds(Run(StartMany(limit, roots), schedule).calls)
  {
    ExecuteManyAccounts(limit, roots, schedule);
    IdsDistinctAll(None, roots);
    DistinctInAnyOrder(JobsOfAll(None, roots), Run(StartMany(limit, roots), schedule).calls);
  }

  lemma DistinctInAnyOrder(a: seq<Task>, b: seq<Task>)
    requires DistinctIds(a) && multiset(a) == multiset(b)
    ensures DistinctIds(b)
  {
    forall i, j | 0 <= i < j < |b| ensures b[i].id != b[j].id {
      assert b == b[..j] + b[j..];
      assert b[i] in b[..j] && b[j] in b[j..];
      if b[i] == b[j] {
        assert multiset(b)[b[i]] >= 2;
        OnceOnly(a, b[i]);
      } else {
        assert b[i] in multiset(a) && b[j] in multiset(a);
      }
    }
  }

  lemma {:induction false} OnceOnly(a: seq<Task>, t: Task)
    requires DistinctIds(a)
    ensures multiset(a)[t] <= 1
  {
    if a != [] {
      OnceOnly(a[1..], t);
      assert a == [a[0]] + a[1..];
      if a[0] == t { assert t !in a[1..]; }
    }
  }
}
