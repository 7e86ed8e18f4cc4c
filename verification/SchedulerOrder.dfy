/** The order in which the scheduler calls tasks: a followup only after the call that emits it. */
module SchedulerOrder {
  import opened Options
  import opened Tasks
  import opened Scheduler
  import opened SchedulerTotals

  /* Executed tasks with their jobs */

  type Node = (Task, Job)

  function Nodes(task: Task, job: Job): seq<Node>
    decreases job, 0
  {
    [(task, job)] + if job.error.Some? then [] else NodesOfAll(Some(task.id), job.followups)
  }

  function NodesOfAll(parent: Option<string>, jobs: seq<Job>): seq<Node>
    decreases jobs, 1
  {
    if jobs == [] then [] else Nodes(Full(parent, jobs[0]), jobs[0]) + NodesOfAll(parent, jobs[1..])
  }

  function TasksOf(nodes: seq<Node>): seq<Task> {
    seq(|nodes|, i requires 0 <= i < |nodes| => nodes[i].0)
  }

  lemma {:induction false} NodesAreJobs(task: Task, job: Job)
    ensures TasksOf(Nodes(task, job)) == Jobs(task, job)
    decreases job, 0
  {
    if job.error.None? { NodesAreJobsAll(Some(task.id), job.followups); }
  }

  lemma {:induction false} NodesAreJobsAll(parent: Option<string>, jobs: seq<Job>)
    ensures TasksOf(NodesOfAll(parent, jobs)) == JobsOfAll(parent, jobs)
    decreases jobs, 1
  {
    if jobs != [] {
      NodesAreJobs(Full(parent, jobs[0]), jobs[0]);
      NodesAreJobsAll(parent, jobs[1..]);
    }
  }

  lemma TaskOfNode(parent: Option<string>, jobs: seq<Job>, n: Node)
    requires n in NodesOfAll(parent, jobs)
    ensures n.0 in JobsOfAll(parent, jobs)
  {
    NodesAreJobsAll(parent, jobs);
    var i :| 0 <= i < |NodesOfAll(parent, jobs)| && NodesOfAll(parent, jobs)[i] == n;
    assert TasksOf(NodesOfAll(parent, jobs))[i] == n.0;
  }

  lemma NodeOfTask(parent: Option<string>, jobs: seq<Job>, t: Task) returns (n: Node)
    requires t in JobsOfAll(parent, jobs)
    ensures n in NodesOfAll(parent, jobs) && n.0 == t
  {
    NodesAreJobsAll(parent, jobs);
    var i :| 0 <= i < |JobsOfAll(parent, jobs)| && JobsOfAll(parent, jobs)[i] == t;
    n := NodesOfAll(parent, jobs)[i];
  }

  /* What makes a task be called */

  predicate IsRoot(roots: seq<Job>, n: Node) {
    n.1 in roots && n.0 == n.1.task
  }

  /** The node's job is a followup of the other's, which succeeds, and its task has the full ID. */
  predicate Follows(p: Node, n: Node) {
    p.1.error.None? && n.1 in p.1.followups && n.0 == Full(Some(p.0.id), n.1)
  }

  /** The node is a root, or a followup of one whose task was called before. */
  ghost predicate Caused(roots: seq<Job>, before: seq<Task>, n: Node) {
    IsRoot(roots, n) || exists p :: p in NodesOfAll(None, roots) && p.0 in before && Follows(p, n)
  }

  lemma {:induction false} JobIsNode(parent: Option<string>, jobs: seq<Job>, job: Job)
    requires job in jobs
    ensures (Full(parent, job), job) in NodesOfAll(parent, jobs)
    decreases jobs
  {
    if job != jobs[0] {
      assert job in jobs[1..];
      JobIsNode(parent, jobs[1..], job);
    } else {
      assert Nodes(Full(parent, job), job)[0] == (Full(parent, job), job);
    }
  }

  /** The followups of a node of a forest are nodes of the forest. */
  lemma {:induction false} FollowupIsNode(task: Task, job: Job, p: Node, n: Node)
    requires p in Nodes(task, job) && Follows(p, n)
    ensures n in Nodes(task, job)
    decreases job, 0
  {
    if p == (task, job) {
      JobIsNode(Some(task.id), job.followups, n.1);
    } else {
      FollowupIsNodeOfAll(Some(task.id), job.followups, p, n);
    }
  }

  lemma {:induction false} FollowupIsNodeOfAll(parent: Option<string>, jobs: seq<Job>, p: Node, n: Node)
    requires p in NodesOfAll(parent, jobs) && Follows(p, n)
    ensures n in NodesOfAll(parent, jobs)
    decreases jobs, 1
  {
    if p in Nodes(Full(parent, jobs[0]), jobs[0]) {
      FollowupIsNode(Full(parent, jobs[0]), jobs[0], p, n);
    } else {
      FollowupIsNodeOfAll(parent, jobs[1..], p, n);
    }
  }

  lemma CausingNode(roots: seq<Job>, before: seq<Task>, n: Node) returns (p: Node)
    requires Caused(roots, before, n) && !IsRoot(roots, n)
    ensures p in NodesOfAll(None, roots) && p.0 in before && Follows(p, n)
  {
    p :| p in NodesOfAll(None, roots) && p.0 in before && Follows(p, n);
  }

  lemma CausedIsNode(roots: seq<Job>, before: seq<Task>, n: Node)
    requires Caused(roots, before, n)
    ensures n in NodesOfAll(None, roots) && AsEmitted(n)
  {
    if IsRoot(roots, n) {
      JobIsNode(None, roots, n.1);
    } else {
      var p :| p in NodesOfAll(None, roots) && p.0 in before && Follows(p, n);
      FollowupIsNodeOfAll(None, roots, p, n);
    }
  }

  /* Every run keeps to it */

  /** The job that a goroutine is starting the followups of, or the caller starting the roots. */
  ghost predicate StartsFor(roots: seq<Job>, calls: seq<Task>, parent: Option<string>, todo: seq<Job>) {
    if parent.None? then forall j | j in todo :: j in roots
    else exists p ::
      && p in NodesOfAll(None, roots) && p.0 in calls && p.0.id == parent.value && p.1.error.None?
      && forall j | j in todo :: j in p.1.followups
  }

  ghost predicate PhaseCaused(roots: seq<Job>, calls: seq<Task>, w: Worker) {
    match w.phase
    case Ready(task, job) => Caused(roots, calls, (task, job))
    case InCall(task, job) => (task, job) in NodesOfAll(None, roots) && task in calls
    case Spawning(parent, todo, _) => StartsFor(roots, calls, parent, todo)
    case Done => true
  }

  ghost predicate CallCaused(roots: seq<Job>, calls: seq<Task>, i: nat)
    requires i < |calls|
  {
    exists n ::
      n in NodesOfAll(None, roots) && n.0 == calls[i] && AsEmitted(n) && Caused(roots, calls[..i], n)
  }

  /** The task is the job's, as it was emitted, but for its ID. */
  predicate AsEmitted(n: Node) {
    && n.0.executor == n.1.task.executor
    && n.0.inputs == n.1.task.inputs
    && n.0.dependencies == n.1.task.dependencies
    && n.0.args == n.1.task.args
  }

  /** Each call is of a root's task, or of a followup, under its full ID, of a job that succeeds and whose task
      was called before; and but for its ID the task is called as it was emitted. */
  ghost predicate CallsCaused(roots: seq<Job>, calls: seq<Task>) {
    forall i | 0 <= i < |calls| :: CallCaused(roots, calls, i)
  }

  ghost predicate Ordered(roots: seq<Job>, s: State) {
    CallsCaused(roots, s.calls) && forall w | w in s.workers :: PhaseCaused(roots, s.calls, w)
  }

  lemma StillCaused(roots: seq<Job>, calls: seq<Task>, task: Task, w: Worker)
    requires PhaseCaused(roots, calls, w)
    ensures PhaseCaused(roots, calls + [task], w)
  {
    var more := calls + [task];
    match w.phase
    case Ready(t, job) =>
      if !IsRoot(roots, (t, job)) {
        var p :| p in NodesOfAll(None, roots) && p.0 in calls && Follows(p, (t, job));
        assert p.0 in more;
      }
    case InCall(_, _) =>
    case Spawning(parent, todo, _) =>
      if parent.Some? {
        var p :| p in NodesOfAll(None, roots) && p.0 in calls && p.0.id == parent.value && p.1.error.None?
          && forall j | j in todo :: j in p.1.followups;
        assert p.0 in more;
      }
    case Done =>
  }

  lemma OneMoreCaused(roots: seq<Job>, calls: seq<Task>, n: Node)
    requires CallsCaused(roots, calls) && Caused(roots, calls, n)
    ensures CallsCaused(roots, calls + [n.0])
  {
    var more := calls + [n.0];
    CausedIsNode(roots, calls, n);
    forall i | 0 <= i < |more| ensures CallCaused(roots, more, i) {
      if i < |calls| {
        assert CallCaused(roots, calls, i) && more[..i] == calls[..i];
      } else {
        assert more[..i] == calls;
      }
    }
  }

  /** What the stepping goroutine goes on to, and the one it starts. */
  lemma StepPhases(roots: seq<Job>, s: State, i: nat)
    requires Enabled(s, i) && PhaseCaused(roots, s.calls, s.workers[i])
    ensures PhaseCaused(roots, Step(s, i).calls, Step(s, i).workers[i])
    ensures Blocked(s.workers[i]) ==> PhaseCaused(roots, s.calls, Step(s, i).workers[|s.workers|])
  {
    match s.workers[i].phase
    case Ready(task, job) =>
      CausedIsNode(roots, s.calls, (task, job));
    case InCall(task, job) =>
    case Spawning(parent, todo, outputs) =>
      if todo != [] { StartIsCaused(roots, s.calls, parent, todo); }
  }

  lemma StartIsCaused(roots: seq<Job>, calls: seq<Task>, parent: Option<string>, todo: seq<Job>)
    requires todo != [] && StartsFor(roots, calls, parent, todo)
    ensures Caused(roots, calls, (Full(parent, todo[0]), todo[0]))
    ensures StartsFor(roots, calls, parent, todo[1..])
  {
    assert todo[0] in todo;
    if parent.Some? {
      var p :| p in NodesOfAll(None, roots) && p.0 in calls && p.0.id == parent.value && p.1.error.None?
        && forall j | j in todo :: j in p.1.followups;
      assert Follows(p, (Full(parent, todo[0]), todo[0]));
      assert forall j | j in todo[1..] :: j in todo;
    }
  }

  lemma StepOrdered(roots: seq<Job>, s: State, i: nat)
    requires Ordered(roots, s) && Enabled(s, i)
    ensures Ordered(roots, Step(s, i))
  {
    var t, mover := Step(s, i), s.workers[i];
    assert mover in s.workers;
    StepPhases(roots, s, i);
    forall w | w in t.workers ensures PhaseCaused(roots, t.calls, w) {
      var j :| 0 <= j < |t.workers| && t.workers[j] == w;
      if j != i && j < |s.workers| {
        assert s.workers[j] == w && w in s.workers;
        if mover.phase.Ready? { StillCaused(roots, s.calls, mover.phase.task, w); }
      }
    }
    if mover.phase.Ready? { OneMoreCaused(roots, s.calls, (mover.phase.task, mover.phase.job)); }
  }

  lemma {:induction false} RunOrdered(roots: seq<Job>, s: State, schedule: seq<nat>)
    requires Ordered(roots, s) && Feasible(s, schedule)
    ensures Ordered(roots, Run(s, schedule))
    decreases |schedule|
  {
    if schedule != [] {
      StepOrdered(roots, s, schedule[0]);
      RunOrdered(roots, Step(s, schedule[0]), schedule[1..]);
    }
  }

  /** So it is in every run, over or not. */
  lemma CallsFollowTheirParents(limit: int, roots: seq<Job>, schedule: seq<nat>)
    requires Feasible(StartMany(limit, roots), schedule)
    ensures CallsCaused(roots, Run(StartMany(limit, roots), schedule).calls)
  {
    RunOrdered(roots, StartMany(limit, roots), schedule);
  }
}
