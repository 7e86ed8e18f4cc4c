/** Dependencies. The scheduler never reads them, so they are honoured only as far as followups are. */
module SchedulerDependencies {
  import opened Options
  import opened Tasks
  import opened Scheduler
  import opened SchedulerIds

  /** Every task about to be called has had its dependencies complete. */
  predicate AllMet(s: State) {
    forall w | w in s.workers && w.phase.Ready? ::
      forall d | d in Elems(w.phase.task.dependencies) :: Success(d) in s.messages
  }

  /** No interleaving calls a task before its dependencies. */
  ghost predicate Honours(limit: int, roots: seq<Job>) {
    forall schedule | Feasible(StartMany(limit, roots), schedule) :: AllMet(Run(StartMany(limit, roots), schedule))
  }

  /** The task that a chain starts from, or one that it goes through before its end, has this ID. */
  predicate AncestorIs(root: Job, path: seq<nat>, id: string) {
    exists i | 0 <= i < |path| ::
      At(root.task, root, path[..i]).Some? && At(root.task, root, path[..i]).value.0.id == id
  }

  predicate ChainCovered(root: Job, path: seq<nat>) {
    var n := At(root.task, root, path);
    n.Some? ==> forall d | d in Elems(n.value.0.dependencies) :: AncestorIs(root, path, d)
  }

  /** Each dependency of each task is one that emits it, directly or further up. */
  ghost predicate Covered(roots: seq<Job>) {
    forall r: nat, path: seq<nat> | r < |roots| :: ChainCovered(roots[r], path)
  }

  /* Chains */

  lemma {:induction false} AtPrefix(task: Task, job: Job, path: seq<nat>, i: nat)
    requires At(task, job, path).Some? && i <= |path|
    ensures At(task, job, path[..i]).Some?
    decreases |path|
  {
    if path != [] && i > 0 {
      var f := job.followups[path[0]];
      AtPrefix(Full(Some(task.id), f), f, path[1..], i - 1);
      assert path[..i][1..] == path[1..][..i - 1];
    }
  }

  lemma {:induction false} AtMore(task: Task, job: Job, path: seq<nat>, k: nat)
    requires At(task, job, path).Some?
    requires var p := At(task, job, path).value; p.1.error.None? && k < |p.1.followups|
    ensures var p := At(task, job, path).value;
      At(task, job, path + [k]) == Some((Full(Some(p.0.id), p.1.followups[k]), p.1.followups[k]))
    decreases |path|
  {
    if path == [] {
      assert (path + [k])[1..] == [];
    } else {
      var f := job.followups[path[0]];
      AtMore(Full(Some(task.id), f), f, path[1..], k);
      assert (path + [k])[1..] == path[1..] + [k];
    }
  }

  /* Ancestors have completed before what they emit is called */

  /** The tasks that a chain goes through, up to a position, have completed. */
  predicate Passed(messages: seq<Msg>, root: Job, path: seq<nat>, n: nat)
    requires n <= |path| + 1
  {
    forall i | 0 <= i < n ::
      At(root.task, root, path[..i]).Some? ==> Success(At(root.task, root, path[..i]).value.0.id) in messages
  }

  predicate Reaches(messages: seq<Msg>, root: Job, path: seq<nat>, task: Task, job: Job) {
    At(root.task, root, path) == Some((task, job)) && Passed(messages, root, path, |path|)
  }

  ghost predicate ReachedBy(roots: seq<Job>, messages: seq<Msg>, task: Task, job: Job) {
    exists r: nat, path: seq<nat> :: r < |roots| && Reaches(messages, roots[r], path, task, job)
  }

  /** A chain to the job whose followups are being started; it has completed too. */
  predicate StartsFrom(messages: seq<Msg>, root: Job, path: seq<nat>, parent: string, todo: seq<Job>) {
    var p := At(root.task, root, path);
    && p.Some? && p.value.0.id == parent && p.value.1.error.None?
    && (forall j | j in todo :: j in p.value.1.followups)
    && Passed(messages, root, path, |path| + 1)
  }

  ghost predicate StartedBy(roots: seq<Job>, messages: seq<Msg>, parent: string, todo: seq<Job>) {
    exists r: nat, path: seq<nat> :: r < |roots| && StartsFrom(messages, roots[r], path, parent, todo)
  }

  ghost predicate PhaseReached(roots: seq<Job>, messages: seq<Msg>, w: Worker) {
    match w.phase
    case Ready(task, job) => ReachedBy(roots, messages, task, job)
    case InCall(task, job) => ReachedBy(roots, messages, task, job)
    case Spawning(parent, todo, _) =>
      if parent.None? then forall j | j in todo :: j in roots else StartedBy(roots, messages, parent.value, todo)
    case Done => true
  }

  ghost predicate AllReached(roots: seq<Job>, s: State) {
    forall w | w in s.workers :: PhaseReached(roots, s.messages, w)
  }

  lemma PassedMore(messages: seq<Msg>, m: Msg, root: Job, path: seq<nat>, n: nat)
    requires n <= |path| + 1 && Passed(messages, root, path, n)
    ensures Passed(messages + [m], root, path, n)
  {}

  lemma StillReached(roots: seq<Job>, messages: seq<Msg>, m: Msg, w: Worker)
    requires PhaseReached(roots, messages, w)
    ensures PhaseReached(roots, messages + [m], w)
  {
    if w.phase.Ready? || w.phase.InCall? {
      var r: nat, path: seq<nat> :| r < |roots| && Reaches(messages, roots[r], path, w.phase.task, w.phase.job);
      PassedMore(messages, m, roots[r], path, |path|);
      assert Reaches(messages + [m], roots[r], path, w.phase.task, w.phase.job);
    } else if w.phase.Spawning? && w.phase.parent.Some? {
      var r: nat, path: seq<nat> :| r < |roots|
        && StartsFrom(messages, roots[r], path, w.phase.parent.value, w.phase.todo);
      PassedMore(messages, m, roots[r], path, |path| + 1);
      assert StartsFrom(messages + [m], roots[r], path, w.phase.parent.value, w.phase.todo);
    }
  }

  /** A call that returns without an error has completed its task, and starts its followups. */
  lemma ReturnStarts(roots: seq<Job>, messages: seq<Msg>, task: Task, job: Job)
    requires ReachedBy(roots, messages, task, job) && job.error.None?
    ensures StartedBy(roots, messages + [Success(task.id)], task.id, job.followups)
  {
    var more := messages + [Success(task.id)];
    var r: nat, path: seq<nat> :| r < |roots| && Reaches(messages, roots[r], path, task, job);
    PassedMore(messages, Success(task.id), roots[r], path, |path|);
    assert path[..|path|] == path && Success(task.id) in more;
    assert StartsFrom(more, roots[r], path, task.id, job.followups);
  }

  lemma RootReached(roots: seq<Job>, messages: seq<Msg>, job: Job)
    requires job in roots
    ensures ReachedBy(roots, messages, job.task, job)
  {
    var r :| 0 <= r < |roots| && roots[r] == job;
    assert Reaches(messages, roots[r], [], job.task, job);
  }

  lemma FollowupReached(roots: seq<Job>, messages: seq<Msg>, parent: string, todo: seq<Job>)
    requires todo != [] && StartedBy(roots, messages, parent, todo)
    ensures ReachedBy(roots, messages, Full(Some(parent), todo[0]), todo[0])
    ensures StartedBy(roots, messages, parent, todo[1..])
  {
    var r: nat, path: seq<nat> :| r < |roots| && StartsFrom(messages, roots[r], path, parent, todo);
    var p := At(roots[r].task, roots[r], path).value;
    assert todo[0] in todo;
    var k: nat :| k < |p.1.followups| && p.1.followups[k] == todo[0];
    AtMore(roots[r].task, roots[r], path, k);
    ChainPassed(messages, roots[r], path, k);
    assert Reaches(messages, roots[r], path + [k], Full(Some(parent), todo[0]), todo[0]);
    assert forall j | j in todo[1..] :: j in todo;
    assert StartsFrom(messages, roots[r], path, parent, todo[1..]);
  }

  lemma ChainPassed(messages: seq<Msg>, root: Job, path: seq<nat>, k: nat)
    requires Passed(messages, root, path, |path| + 1)
    ensures Passed(messages, root, path + [k], |path + [k]|)
  {
    assert forall i | 0 <= i <= |path| :: (path + [k])[..i] == path[..i];
  }

  lemma StepReached(roots: seq<Job>, s: State, i: nat)
    requires AllReached(roots, s) && Enabled(s, i)
    ensures AllReached(roots, Step(s, i))
  {
    var t, mover := Step(s, i), s.workers[i];
    assert mover in s.workers;
    MoverReached(roots, s, i);
    forall w | w in t.workers ensures PhaseReached(roots, t.messages, w) {
      var j :| 0 <= j < |t.workers| && t.workers[j] == w;
      if j != i && j < |s.workers| {
        assert s.workers[j] == w && w in s.workers;
        if mover.phase.Ready? {
          StillReached(roots, s.messages, Running(mover.phase.task.id), w);
        } else if mover.phase.InCall? {
          StillReached(roots, s.messages, Finished(mover.phase.task.id, mover.phase.job.error), w);
        }
      }
    }
  }

  /** What the stepping goroutine goes on to, and the one it starts. */
  lemma MoverReached(roots: seq<Job>, s: State, i: nat)
    requires Enabled(s, i) && PhaseReached(roots, s.messages, s.workers[i])
    ensures PhaseReached(roots, Step(s, i).messages, Step(s, i).workers[i])
    ensures Blocked(s.workers[i]) ==> PhaseReached(roots, s.messages, Step(s, i).workers[|s.workers|])
  {
    match s.workers[i].phase
    case Ready(task, job) => StillReached(roots, s.messages, Running(task.id), s.workers[i]);
    case InCall(task, job) =>
      if job.error.None? { ReturnStarts(roots, s.messages, task, job); }
    case Spawning(parent, todo, outputs) =>
      if todo != [] {
        if parent.None? {
          assert todo[0] in todo && forall j | j in todo[1..] :: j in todo;
          RootReached(roots, s.messages, todo[0]);
        } else {
          FollowupReached(roots, s.messages, parent.value, todo);
        }
      }
  }

  lemma {:induction false} RunReached(roots: seq<Job>, s: State, schedule: seq<nat>)
    requires AllReached(roots, s) && Feasible(s, schedule)
    ensures AllReached(roots, Run(s, schedule))
    decreases |schedule|
  {
    if schedule != [] {
      StepReached(roots, s, schedule[0]);
      RunReached(roots, Step(s, schedule[0]), schedule[1..]);
    }
  }

  lemma ReachedIsMet(roots: seq<Job>, s: State)
    requires Covered(roots) && AllReached(roots, s)
    ensures AllMet(s)
  {
    forall w, d | w in s.workers && w.phase.Ready? && d in Elems(w.phase.task.dependencies)
      ensures Success(d) in s.messages
    {
      assert PhaseReached(roots, s.messages, w);
      var r: nat, path: seq<nat> :| r < |roots| && Reaches(s.messages, roots[r], path, w.phase.task, w.phase.job);
      assert ChainCovered(roots[r], path);
      var i :| 0 <= i < |path| && At(roots[r].task, roots[r], path[..i]).Some?
        && At(roots[r].task, roots[r], path[..i]).value.0.id == d;
    }
  }

  /** If each dependency is one that emits the task, no interleaving, with any limit, calls a task before its
      dependencies have completed. */
  lemma CoveredIsHonoured(limit: int, roots: seq<Job>)
    requires Covered(roots)
    ensures Honours(limit, roots)
  {
    forall schedule | Feasible(StartMany(limit, roots), schedule)
      ensures AllMet(Run(StartMany(limit, roots), schedule))
    {
      RunReached(roots, StartMany(limit, roots), schedule);
      ReachedIsMet(roots, Run(StartMany(limit, roots), schedule));
    }
  }

  /* Without a limit, a schedule that calls the tasks of one chain and nothing else */

  lemma {:induction false} RunMore(s: State, a: seq<nat>, b: seq<nat>)
    requires Feasible(s, a) && Feasible(Run(s, a), b)
    ensures Feasible(s, a + b) && Run(s, a + b) == Run(Run(s, a), b)
    decreases |a|
  {
    if a == [] {
      assert a + b == b;
    } else {
      RunMore(Step(s, a[0]), a[1..], b);
      assert (a + b)[0] == a[0] && (a + b)[1..] == a[1..] + b;
    }
  }

  /** The last goroutine started is about to call the task. */
  predicate LastReady(s: State, task: Task, job: Job) {
    s.limit < 0 && s.workers != [] && s.workers[|s.workers| - 1].phase == Ready(task, job)
  }

  /** Starting a goroutine's jobs up to one of them. */
  lemma {:induction false} StartUpTo(s: State, w: nat, k: nat) returns (schedule: seq<nat>)
    requires s.limit < 0 && w < |s.workers| && s.workers[w].phase.Spawning? && k < |s.workers[w].phase.todo|
    ensures Feasible(s, schedule)
    ensures var p := s.workers[w].phase;
      LastReady(Run(s, schedule), Full(p.parent, p.todo[k]), p.todo[k]) && Run(s, schedule).messages == s.messages
    decreases k
  {
    var next := Step(s, w);
    if k == 0 {
      schedule := [w];
      assert schedule[1..] == [];
    } else {
      assert next.workers[w].phase.todo == s.workers[w].phase.todo[1..];
      var rest := StartUpTo(next, w, k - 1);
      schedule := [w] + rest;
      assert schedule[1..] == rest;
    }
  }

  /** What the tasks above the end of a chain send. */
  function ChainMessages(task: Task, job: Job, path: seq<nat>): seq<Msg>
    decreases |path|
  {
    if path == [] || path[0] >= |job.followups| then []
    else
      var f := job.followups[path[0]];
      [Running(task.id), Success(task.id)] + ChainMessages(Full(Some(task.id), f), f, path[1..])
  }

  /** Calling a task and starting its followups up to one of them. */
  lemma Descends(s: State, task: Task, job: Job, k: nat) returns (schedule: seq<nat>)
    requires LastReady(s, task, job) && job.error.None? && k < |job.followups|
    ensures Feasible(s, schedule)
    ensures LastReady(Run(s, schedule), Full(Some(task.id), job.followups[k]), job.followups[k])
    ensures Run(s, schedule).messages == s.messages + [Running(task.id), Success(task.id)]
  {
    var w := |s.workers| - 1;
    var called := Step(s, w);
    var returned := Step(called, w);
    var rest := StartUpTo(returned, w, k);
    schedule := [w, w] + rest;
    assert schedule[1..] == [w] + rest && schedule[1..][1..] == rest;
    assert returned.messages == s.messages + [Running(task.id), Success(task.id)];
  }

  lemma {:induction false} FollowsChain(s: State, task: Task, job: Job, path: seq<nat>) returns (schedule: seq<nat>)
    requires LastReady(s, task, job) && At(task, job, path).Some?
    ensures Feasible(s, schedule)
    ensures var n := At(task, job, path).value; LastReady(Run(s, schedule), n.0, n.1)
    ensures Run(s, schedule).messages == s.messages + ChainMessages(task, job, path)
    decreases |path|
  {
    if path == [] {
      schedule := [];
    } else {
      var f := job.followups[path[0]];
      var down := Descends(s, task, job, path[0]);
      var t := Run(s, down);
      var rest := FollowsChain(t, Full(Some(task.id), f), f, path[1..]);
      RunMore(s, down, rest);
      schedule := down + rest;
      MessagesJoin(s.messages, [Running(task.id), Success(task.id)],
                   ChainMessages(Full(Some(task.id), f), f, path[1..]));
    }
  }

  lemma MessagesJoin(a: seq<Msg>, b: seq<Msg>, c: seq<Msg>)
    ensures a + b + c == a + (b + c)
  {}

  lemma ChainAlone(limit: int, roots: seq<Job>, r: nat, path: seq<nat>) returns (schedule: seq<nat>)
    requires limit < 0 && r < |roots| && At(roots[r].task, roots[r], path).Some?
    ensures Feasible(StartMany(limit, roots), schedule)
    ensures var s, n := Run(StartMany(limit, roots), schedule), At(roots[r].task, roots[r], path).value;
      LastReady(s, n.0, n.1) && s.messages == ChainMessages(roots[r].task, roots[r], path)
  {
    var s := StartMany(limit, roots);
    var start := StartUpTo(s, 0, r);
    var rest := FollowsChain(Run(s, start), roots[r].task, roots[r], path);
    RunMore(s, start, rest);
    schedule := start + rest;
    assert [] + ChainMessages(roots[r].task, roots[r], path) == ChainMessages(roots[r].task, roots[r], path);
  }

  lemma {:induction false} OnlyAncestorsComplete(task: Task, job: Job, path: seq<nat>, id: string) returns (i: nat)
    requires At(task, job, path).Some? && Success(id) in ChainMessages(task, job, path)
    ensures i < |path| && At(task, job, path[..i]).Some? && At(task, job, path[..i]).value.0.id == id
    decreases |path|
  {
    if id == task.id {
      i := 0;
      assert path[..0] == [];
    } else {
      var f := job.followups[path[0]];
      var j := OnlyAncestorsComplete(Full(Some(task.id), f), f, path[1..], id);
      i := j + 1;
      assert path[..i][1..] == path[1..][..j] && path[..i] != [] && path[..i][0] == path[0];
    }
  }

  lemma HonouredIsCovered(limit: int, roots: seq<Job>, r: nat, path: seq<nat>)
    requires limit < 0 && Honours(limit, roots) && r < |roots|
    ensures ChainCovered(roots[r], path)
  {
    var root := roots[r];
    if At(root.task, root, path).Some? {
      var n := At(root.task, root, path).value;
      var schedule := ChainAlone(limit, roots, r, path);
      var s := Run(StartMany(limit, roots), schedule);
      var w := s.workers[|s.workers| - 1];
      assert AllMet(s) && w in s.workers && w.phase.Ready?;
      forall d | d in Elems(n.0.dependencies) ensures AncestorIs(root, path, d) {
        assert Success(d) in s.messages;
        var i := OnlyAncestorsComplete(root.task, root, path, d);
      }
    }
  }

  /** Without a limit, every interleaving calls each task only after its dependencies have completed if and only
      if each dependency of each task is one that emits it, directly or further up. */
  lemma HonouredIffCovered(limit: int, roots: seq<Job>)
    requires limit < 0
    ensures Honours(limit, roots) <==> Covered(roots)
  {
    if Covered(roots) { CoveredIsHonoured(limit, roots); }
    if Honours(limit, roots) {
      forall r: nat, path: seq<nat> | r < |roots| ensures ChainCovered(roots[r], path) {
        HonouredIsCovered(limit, roots, r, path);
      }
    }
  }

  /** Two roots of which the first depends on the second: with every limit but zero the first can be called with
      the second not even started. */
  lemma DependencyMissed(limit: int, a: Task, b: Task)
    requires limit != 0 && a.dependencies == Some([b.id])
    ensures !Honours(limit, [Job(a, None, [], []), Job(b, None, [], [])])
  {
    var roots := [Job(a, None, [], []), Job(b, None, [], [])];
    var s := StartMany(limit, roots);
    assert s.workers[..0] == [];
    assert Sum(Holds, s.workers) == Sum(Holds, s.workers[..0]) + Holds(s.workers[0]);
    var schedule: seq<nat> := [0];
    assert schedule[1..] == [];
    var t := Step(s, 0);
    assert Feasible(s, schedule) && Run(s, schedule) == t;
    assert t.workers[1] in t.workers && t.workers[1].phase == Ready(a, roots[0]) && t.messages == [];
    assert b.id in Elems(a.dependencies) && !AllMet(t);
  }
}
