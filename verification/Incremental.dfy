/** The scheduler over the state checker: after one successful run, a second one calls no executor and gives
    the same outputs. Calls touch the source tree and their own output directory only, so each call is one
    step of the workspace, in the order in which the scheduler makes them. */
module Incremental {
  import opened Options
  import opened Seqs
  import opened Tasks
  import opened Scheduler
  import opened SchedulerTotals
  import opened SchedulerIds
  import opened SchedulerOrder
  import opened StateCheck
  import opened StateCheckContents
  import opened StateCheckHistories
  import opened StateCheckHits

  function Emitted(jobs: seq<Job>): seq<Task> {
    seq(|jobs|, i requires 0 <= i < |jobs| => jobs[i].task)
  }

  /* Runs over a workspace */

  function CallAll(libs: Libs, child: Child, w: World, calls: seq<Task>): World {
    if calls == [] then w
    else Apply(libs, child, CallAll(libs, child, w, calls[..|calls| - 1]), Call(calls[|calls| - 1], NoFault))
  }

  /** The tasks for which the child was called, the state not matching. */
  function Ran(libs: Libs, child: Child, w: World, calls: seq<Task>): seq<Task> {
    if calls == [] then []
    else
      var front, t := calls[..|calls| - 1], calls[|calls| - 1];
      var before := CallAll(libs, child, w, front);
      Ran(libs, child, w, front) + if Hit(libs, before.source, DirOf(before, t.id), t) then [] else [t]
  }

  /** The state checker, called on the task in this workspace, does what the job says. */
  predicate Answers(libs: Libs, child: Child, w: World, node: Node) {
    var o, job := Fresh(libs, child, w, node.0, NoFault), node.1;
    o.error == job.error && o.outputs == job.outputs && o.followups == Emitted(job.followups)
  }

  /** The forest is the one that the scheduler met when it made these calls, starting in this workspace. */
  predicate Met(libs: Libs, child: Child, w: World, nodes: seq<Node>, calls: seq<Task>) {
    forall i, n | 0 <= i < |calls| && n in nodes && n.0 == calls[i] ::
      Answers(libs, child, CallAll(libs, child, w, calls[..i]), n)
  }

  /** The outcome of a task is replayed exactly. */
  ghost predicate Replayable(libs: Libs, node: Node) {
    && node.1.error.None?
    && node.0.inputs != Some([])
    && (forall f | f in node.1.followups :: DecodedTask(f.task) == f.task)
    && (forall names :: !MatchedBy(libs, names, node.1.outputs, STATE_FILE))
  }

  /** The saved state matches, and replays what the job says. */
  predicate Replays(libs: Libs, w: World, node: Node) {
    var dir := DirOf(w, node.0.id);
    && Hit(libs, w.source, dir, node.0)
    && ReadState(libs, dir).value.outputs == node.1.outputs
    && ReadState(libs, dir).value.followups == Emitted(node.1.followups)
  }

  lemma StableEmitted(jobs: seq<Job>)
    requires forall f | f in jobs :: DecodedTask(f.task) == f.task
    ensures StableFollowups(Emitted(jobs)) && DecodedTasks(Emitted(jobs)) == Emitted(jobs)
  {
    forall i | 0 <= i < |jobs| ensures OnlyZeroInts(jobs[i].task.args) && DecodedTask(jobs[i].task) == jobs[i].task {
      assert jobs[i] in jobs;
      HashSurvivesIff(jobs[i].task.args);
    }
  }

  lemma ReplaysOnceCalled(libs: Libs, child: Child, w: World, node: Node)
    requires Sound(libs) && Answers(libs, child, w, node) && Replayable(libs, node)
    ensures Replays(libs, Apply(libs, child, w, Call(node.0, NoFault)), node)
  {
    var t, job := node.0, node.1;
    var dir := DirOf(w, t.id);
    StableEmitted(job.followups);
    if Hit(libs, w.source, dir, t) {
      var s := ReadState(libs, dir).value;
      assert [] + s.outputs == s.outputs && [] + s.followups == s.followups;
    } else {
      var o := child(t, w.source, dir);
      assert [] + o.outputs == o.outputs && [] + o.followups == o.followups;
      SkippedIffRepeatable(libs, w.source, o.dir, t, o.outputs, o.followups);
    }
  }

  /** Calls leave the source tree alone, and the output directories of other tasks. */
  lemma {:induction false} CallsTouchOwnDir(libs: Libs, child: Child, w: World, calls: seq<Task>, id: string)
    requires forall t | t in calls :: t.id != id
    ensures CallAll(libs, child, w, calls).source == w.source
    ensures DirOf(CallAll(libs, child, w, calls), id) == DirOf(w, id)
  {
    if calls != [] {
      assert forall t | t in calls[..|calls| - 1] :: t in calls;
      CallsTouchOwnDir(libs, child, w, calls[..|calls| - 1], id);
      assert calls[|calls| - 1] in calls;
    }
  }

  lemma {:induction false} CallAllSplits(libs: Libs, child: Child, w: World, a: seq<Task>, b: seq<Task>)
    ensures CallAll(libs, child, w, a + b) == CallAll(libs, child, CallAll(libs, child, w, a), b)
  {
    if b == [] {
      assert a + b == a;
    } else {
      CallAllSplits(libs, child, w, a, b[..|b| - 1]);
      assert (a + b)[..|a + b| - 1] == a + b[..|b| - 1];
    }
  }

  /** Later calls on other tasks leave a replay in place. */
  lemma StillReplays(libs: Libs, child: Child, w: World, later: seq<Task>, node: Node)
    requires Replays(libs, w, node) && forall t | t in later :: t.id != node.0.id
    ensures Replays(libs, CallAll(libs, child, w, later), node)
  {
    CallsTouchOwnDir(libs, child, w, later, node.0.id);
  }

  lemma OthersLater(calls: seq<Task>, i: nat)
    requires DistinctIds(calls) && i < |calls|
    ensures forall t | t in calls[..i] :: t.id != calls[i].id
    ensures forall t | t in calls[i + 1..] :: t.id != calls[i].id
  {
    forall t | t in calls[i + 1..] ensures t.id != calls[i].id {
      var j :| 0 <= j < |calls| - i - 1 && calls[i + 1..][j] == t;
      assert calls[i + 1 + j] == t;
    }
  }

  /** After a run, every task it called replays. */
  lemma {:induction false} ReplaysAfterRun(libs: Libs, child: Child, w: World, nodes: seq<Node>, calls: seq<Task>,
                                           node: Node)
    requires Sound(libs) && Met(libs, child, w, nodes, calls) && DistinctIds(calls)
    requires node in nodes && node.0 in calls && Replayable(libs, node)
    ensures Replays(libs, CallAll(libs, child, w, calls), node)
  {
    var i :| 0 <= i < |calls| && calls[i] == node.0;
    var w' := CallAll(libs, child, w, calls[..i]);
    assert Answers(libs, child, w', node);
    ReplaysOnceCalled(libs, child, w', node);
    OthersLater(calls, i);
    CallAllAround(libs, child, w, calls, i);
    StillReplays(libs, child, Apply(libs, child, w', Call(node.0, NoFault)), calls[i + 1..], node);
  }

  lemma CallAllAround(libs: Libs, child: Child, w: World, calls: seq<Task>, i: nat)
    requires i < |calls|
    ensures var w' := CallAll(libs, child, w, calls[..i]);
      CallAll(libs, child, w, calls)
        == CallAll(libs, child, Apply(libs, child, w', Call(calls[i], NoFault)), calls[i + 1..])
  {
    var upTo := calls[..i + 1];
    assert upTo[..i] == calls[..i];
    CallAllSplits(libs, child, w, upTo, calls[i + 1..]);
    assert calls == upTo + calls[i + 1..];
  }

  /* The second run */

  /** What a replaying task answers. */
  lemma ReplayAnswers(libs: Libs, child: Child, w: World, node: Node, other: Node)
    requires Replays(libs, w, node) && node.0 == other.0 && Answers(libs, child, w, other)
    ensures other.1.error.None? && other.1.outputs == node.1.outputs
    ensures Emitted(other.1.followups) == Emitted(node.1.followups)
  {
    var s := ReadState(libs, DirOf(w, node.0.id)).value;
    assert [] + s.outputs == s.outputs && [] + s.followups == s.followups;
  }

  ghost predicate AllReplay(libs: Libs, w: World, nodes: seq<Node>) {
    forall n | n in nodes :: Replays(libs, w, n) && n.1.error.None?
  }

  ghost predicate AllAnswer(libs: Libs, child: Child, w: World, nodes: seq<Node>) {
    forall n | n in nodes :: Answers(libs, child, w, n)
  }

  /** A forest that grows from the same tasks, each answering what the other forest replays, is that forest. */
  lemma {:induction false} SameJob(libs: Libs, child: Child, w: World, task: Task, a: Job, b: Job)
    requires AllReplay(libs, w, Nodes(task, a)) && AllAnswer(libs, child, w, Nodes(task, b))
    requires a.task == b.task
    ensures a == b
    decreases a, 0
  {
    assert (task, a) in Nodes(task, a) && (task, b) in Nodes(task, b);
    ReplayAnswers(libs, child, w, (task, a), (task, b));
    SameForest(libs, child, w, Some(task.id), a.followups, b.followups);
  }

  lemma {:induction false} SameForest(libs: Libs, child: Child, w: World, parent: Option<string>, a: seq<Job>,
                                      b: seq<Job>)
    requires AllReplay(libs, w, NodesOfAll(parent, a)) && AllAnswer(libs, child, w, NodesOfAll(parent, b))
    requires Emitted(a) == Emitted(b)
    ensures a == b
    decreases a, 1
  {
    assert |Emitted(a)| == |a| && |Emitted(b)| == |b|;
    if a != [] {
      assert Emitted(a)[0] == a[0].task && Emitted(b)[0] == b[0].task;
      assert Full(parent, a[0]) == Full(parent, b[0]);
      SameJob(libs, child, w, Full(parent, a[0]), a[0], b[0]);
      assert Emitted(a[1..]) == Emitted(a)[1..] && Emitted(b[1..]) == Emitted(b)[1..];
      SameForest(libs, child, w, parent, a[1..], b[1..]);
    }
  }

  /** Calls on tasks that replay change nothing and run nothing. */
  lemma {:induction false} ReplayingCalls(libs: Libs, child: Child, w: World, calls: seq<Task>)
    requires forall t | t in calls :: Hit(libs, w.source, DirOf(w, t.id), t)
    ensures CallAll(libs, child, w, calls) == w && Ran(libs, child, w, calls) == []
  {
    if calls != [] {
      var t := calls[|calls| - 1];
      assert forall u | u in calls[..|calls| - 1] :: u in calls;
      ReplayingCalls(libs, child, w, calls[..|calls| - 1]);
      assert t in calls;
      assert STATE_FILE in DirOf(w, t.id);
      assert w.output[t.id := DirOf(w, t.id)] == w.output;
    }
  }

  /** The task is one of the forest's. */
  ghost predicate Known(roots: seq<Job>, t: Task) {
    exists n :: n in NodesOfAll(None, roots) && n.0 == t
  }

  lemma KnownHits(libs: Libs, w: World, roots: seq<Job>, calls: seq<Task>)
    requires AllReplay(libs, w, NodesOfAll(None, roots)) && forall t | t in calls :: Known(roots, t)
    ensures forall t | t in calls :: Hit(libs, w.source, DirOf(w, t.id), t)
  {
    forall t | t in calls ensures Hit(libs, w.source, DirOf(w, t.id), t) {
      assert Known(roots, t);
      var n :| n in NodesOfAll(None, roots) && n.0 == t;
      assert Replays(libs, w, n);
    }
  }

  lemma SameTasks(a: seq<Job>, b: seq<Job>, k: nat)
    requires Emitted(a) == Emitted(b) && k < |b|
    ensures k < |a| && a[k].task == b[k].task
  {
    assert |Emitted(a)| == |a| && Emitted(a)[k] == a[k].task && Emitted(b)[k] == b[k].task;
  }

  lemma RootIsKnown(roots: seq<Job>, roots': seq<Job>, n: Node)
    requires Emitted(roots) == Emitted(roots') && IsRoot(roots', n)
    ensures Known(roots, n.0)
  {
    var k :| 0 <= k < |roots'| && roots'[k] == n.1;
    SameTasks(roots, roots', k);
    JobIsNode(None, roots, roots[k]);
    assert (roots[k].task, roots[k]) in NodesOfAll(None, roots);
  }

  /** What follows a task that answers as the forest replays is a task of the forest. */
  lemma FollowupIsKnown(libs: Libs, child: Child, w: World, roots: seq<Job>, p: Node, n: Node)
    requires AllReplay(libs, w, NodesOfAll(None, roots)) && Known(roots, p.0)
    requires Answers(libs, child, w, p) && Follows(p, n)
    ensures Known(roots, n.0)
  {
    var a :| a in NodesOfAll(None, roots) && a.0 == p.0;
    ReplayAnswers(libs, child, w, a, p);
    var k :| 0 <= k < |p.1.followups| && p.1.followups[k] == n.1;
    SameTasks(a.1.followups, p.1.followups, k);
    var g := a.1.followups[k];
    assert Follows(a, (n.0, g));
    FollowupIsNodeOfAll(None, roots, a, (n.0, g));
  }

  /** The calls up to a position are of the forest's tasks. */
  ghost predicate KnownUpTo(roots: seq<Job>, calls: seq<Task>, i: nat)
    requires i <= |calls|
  {
    forall t | t in calls[..i] :: Known(roots, t)
  }

  lemma CausedIsKnown(libs: Libs, child: Child, w: World, roots: seq<Job>, roots': seq<Job>, calls: seq<Task>, i: nat,
                      n: Node)
    requires AllReplay(libs, w, NodesOfAll(None, roots)) && Met(libs, child, w, NodesOfAll(None, roots'), calls)
    requires i < |calls| && KnownUpTo(roots, calls, i)
    requires Caused(roots', calls[..i], n) && !IsRoot(roots', n)
    ensures Known(roots, n.0)
  {
    var p := CausingNode(roots', calls[..i], n);
    var j :| 0 <= j < i && calls[j] == p.0;
    assert forall t | t in calls[..j] :: t in calls[..i];
    AnswersStill(libs, child, w, roots, NodesOfAll(None, roots'), calls, j, p);
    FollowupIsKnown(libs, child, w, roots, p, n);
  }

  lemma NextIsKnown(libs: Libs, child: Child, w: World, roots: seq<Job>, roots': seq<Job>, calls: seq<Task>, i: nat)
    requires AllReplay(libs, w, NodesOfAll(None, roots)) && Emitted(roots) == Emitted(roots')
    requires Met(libs, child, w, NodesOfAll(None, roots'), calls) && CallsCaused(roots', calls)
    requires i < |calls| && KnownUpTo(roots, calls, i)
    ensures Known(roots, calls[i])
  {
    assert CallCaused(roots', calls, i);
    var n :| n in NodesOfAll(None, roots') && n.0 == calls[i] && Caused(roots', calls[..i], n);
    if IsRoot(roots', n) {
      RootIsKnown(roots, roots', n);
    } else {
      CausedIsKnown(libs, child, w, roots, roots', calls, i, n);
    }
  }

  /** Call by call, a run in a workspace where a forest replays, from the same root tasks, calls only tasks
      of that forest: up to there nothing has run, so each call's parent answers what the forest replays. */
  lemma {:induction false} CallsStayKnown(libs: Libs, child: Child, w: World, roots: seq<Job>, roots': seq<Job>,
                                          calls: seq<Task>, i: nat)
    requires AllReplay(libs, w, NodesOfAll(None, roots)) && Emitted(roots) == Emitted(roots')
    requires Met(libs, child, w, NodesOfAll(None, roots'), calls) && CallsCaused(roots', calls) && i <= |calls|
    ensures KnownUpTo(roots, calls, i)
    decreases i
  {
    if i > 0 {
      CallsStayKnown(libs, child, w, roots, roots', calls, i - 1);
      NextIsKnown(libs, child, w, roots, roots', calls, i - 1);
      InLast(calls[..i]);
      assert calls[..i][..i - 1] == calls[..i - 1];
    }
  }

  /** Before a call whose predecessors all replay, the workspace is the one the run started in. */
  lemma AnswersStill(libs: Libs, child: Child, w: World, roots: seq<Job>, nodes: seq<Node>, calls: seq<Task>, j: nat,
                     n: Node)
    requires AllReplay(libs, w, NodesOfAll(None, roots)) && Met(libs, child, w, nodes, calls)
    requires j < |calls| && n in nodes && n.0 == calls[j] && forall t | t in calls[..j] :: Known(roots, t)
    ensures Answers(libs, child, w, n)
  {
    KnownHits(libs, w, roots, calls[..j]);
    ReplayingCalls(libs, child, w, calls[..j]);
  }

  lemma CalledNodes(roots: seq<Job>, calls: seq<Task>, n: Node)
    requires multiset(calls) == multiset(JobsOfAll(None, roots)) && n in NodesOfAll(None, roots)
    ensures n.0 in calls
  {
    TaskOfNode(None, roots, n);
    assert n.0 in multiset(JobsOfAll(None, roots));
  }

  /** A completed run of `ExecuteMany` over the state checker, from a workspace. */
  predicate Completed(libs: Libs, child: Child, w: World, limit: int, roots: seq<Job>, schedule: seq<nat>) {
    && Feasible(StartMany(limit, roots), schedule)
    && Final(Run(StartMany(limit, roots), schedule))
    && Met(libs, child, w, NodesOfAll(None, roots), Run(StartMany(limit, roots), schedule).calls)
  }

  /** After a successful run, whatever the limits and the interleavings, a second run of the same root tasks
      on the unchanged workspace meets the same forest, runs nothing, leaves the workspace as it is, visits
      the same tasks and gives the same outputs. */
  lemma SecondRunIsReplay(libs: Libs, child: Child, w: World,
                          limit: int, roots: seq<Job>, schedule: seq<nat>,
                          limit': int, roots': seq<Job>, schedule': seq<nat>)
    requires Sound(libs) && Completed(libs, child, w, limit, roots, schedule)
    requires DistinctIds(JobsOfAll(None, roots))
    requires forall n | n in NodesOfAll(None, roots) :: Replayable(libs, n)
    requires Completed(libs, child, CallAll(libs, child, w, Run(StartMany(limit, roots), schedule).calls),
                       limit', roots', schedule')
    requires Emitted(roots) == Emitted(roots')
    ensures var first, second := Run(StartMany(limit, roots), schedule), Run(StartMany(limit', roots'), schedule');
      var w' := CallAll(libs, child, w, first.calls);
      && roots' == roots
      && Ran(libs, child, w', second.calls) == []
      && (forall t | t in second.calls :: Hit(libs, w'.source, DirOf(w', t.id), t))
      && CallAll(libs, child, w', second.calls) == w'
      && multiset(second.calls) == multiset(first.calls)
      && multiset(second.outputs) == multiset(first.outputs)
  {
    var first, second := Run(StartMany(limit, roots), schedule), Run(StartMany(limit', roots'), schedule');
    var w' := CallAll(libs, child, w, first.calls);
    ForestReplays(libs, child, w, limit, roots, schedule);
    ExecuteManyAccounts(limit, roots, schedule);
    ExecuteManyAccounts(limit', roots', schedule');
    CallsFollowTheirParents(limit', roots', schedule');
    CallsStayKnown(libs, child, w', roots, roots', second.calls, |second.calls|);
    assert second.calls[..|second.calls|] == second.calls;
    KnownHits(libs, w', roots, second.calls);
    ReplayingCalls(libs, child, w', second.calls);
    forall n | n in NodesOfAll(None, roots') ensures Answers(libs, child, w', n) {
      CalledNodes(roots', second.calls, n);
      var j :| 0 <= j < |second.calls| && second.calls[j] == n.0;
      AnswersStill(libs, child, w', roots, NodesOfAll(None, roots'), second.calls, j, n);
    }
    SameForest(libs, child, w', None, roots, roots');
  }

  lemma ReplayIsAnswer(libs: Libs, child: Child, w: World, node: Node)
    requires Replays(libs, w, node) && node.1.error.None?
    ensures Answers(libs, child, w, node)
  {
    var s := ReadState(libs, DirOf(w, node.0.id)).value;
    assert [] + s.outputs == s.outputs && [] + s.followups == s.followups;
  }

  lemma FinalCallsKnown(limit: int, roots: seq<Job>, schedule: seq<nat>, t: Task)
    requires Feasible(StartMany(limit, roots), schedule) && Final(Run(StartMany(limit, roots), schedule))
    requires t in Run(StartMany(limit, roots), schedule).calls
    ensures Known(roots, t)
  {
    ExecuteManyAccounts(limit, roots, schedule);
    assert t in multiset(Run(StartMany(limit, roots), schedule).calls);
    var n := NodeOfTask(None, roots, t);
  }

  /** And there is such a second run for every limit and every schedule of the forest that completes. */
  lemma SecondRunsComplete(libs: Libs, child: Child, w: World, limit: int, roots: seq<Job>, schedule: seq<nat>,
                           limit': int, schedule': seq<nat>)
    requires Sound(libs) && Completed(libs, child, w, limit, roots, schedule)
    requires DistinctIds(JobsOfAll(None, roots)) && forall n | n in NodesOfAll(None, roots) :: Replayable(libs, n)
    requires Feasible(StartMany(limit', roots), schedule') && Final(Run(StartMany(limit', roots), schedule'))
    ensures Completed(libs, child, CallAll(libs, child, w, Run(StartMany(limit, roots), schedule).calls),
                      limit', roots, schedule')
  {
    var w' := CallAll(libs, child, w, Run(StartMany(limit, roots), schedule).calls);
    var calls, nodes := Run(StartMany(limit', roots), schedule').calls, NodesOfAll(None, roots);
    ForestReplays(libs, child, w, limit, roots, schedule);
    forall t | t in calls ensures Known(roots, t) { FinalCallsKnown(limit', roots, schedule', t); }
    forall i, n | 0 <= i < |calls| && n in nodes && n.0 == calls[i]
      ensures Answers(libs, child, CallAll(libs, child, w', calls[..i]), n)
    {
      assert forall t | t in calls[..i] :: t in calls;
      KnownHits(libs, w', roots, calls[..i]);
      ReplayingCalls(libs, child, w', calls[..i]);
      ReplayIsAnswer(libs, child, w', n);
    }
  }

  lemma ForestReplays(libs: Libs, child: Child, w: World, limit: int, roots: seq<Job>, schedule: seq<nat>)
    requires Sound(libs) && Completed(libs, child, w, limit, roots, schedule)
    requires DistinctIds(JobsOfAll(None, roots)) && forall n | n in NodesOfAll(None, roots) :: Replayable(libs, n)
    ensures AllReplay(libs, CallAll(libs, child, w, Run(StartMany(limit, roots), schedule).calls),
                      NodesOfAll(None, roots))
  {
    var calls := Run(StartMany(limit, roots), schedule).calls;
    ExecuteManyAccounts(limit, roots, schedule);
    DistinctInAnyOrder(JobsOfAll(None, roots), calls);
    forall n | n in NodesOfAll(None, roots) ensures Replays(libs, CallAll(libs, child, w, calls), n) {
      CalledNodes(roots, calls, n);
      ReplaysAfterRun(libs, child, w, NodesOfAll(None, roots), calls, n);
    }
  }
}
