/** What a run amounts to, counted over the jobs that are executed: each message, output, error and call. */
module SchedulerCounts {
  import opened Options
  import opened Seqs
  import opened Tasks
  import opened Scheduler
  import opened SchedulerTotals
  import opened SchedulerOrder
  import opened SchedulerIds

  /* What one executed job contributes */

  /** The messages that a listener hears about a job: that it is running, and then that it succeeded or with
      which error it failed. */
  predicate Tells(n: Node, m: Msg) {
    match m
    case Running(id) => n.0.id == id
    case Success(id) => n.0.id == id && n.1.error == None
    case Failure(id, error) => n.0.id == id && n.1.error == Some(error)
  }

  function Telling(m: Msg): Node -> nat {
    (n: Node) => if Tells(n, m) then 1 else 0
  }

  /** The outputs of a job count if it succeeds. */
  function Giving(output: string): Node -> nat {
    (n: Node) => if n.1.error == None then Occ(n.1.outputs, output) else 0
  }

  function Failing(error: string): Node -> nat {
    (n: Node) => if n.1.error == Some(error) then 1 else 0
  }

  function Being(task: Task): Node -> nat {
    (n: Node) => if n.0 == task then 1 else 0
  }

  lemma TotalOfFirst(task: Task, job: Job, f: Node -> nat)
    ensures Total(Nodes(task, job), f) ==
      f((task, job)) + if job.error.Some? then 0 else Total(NodesOfAll(Some(task.id), job.followups), f)
  {
    TotalMore([(task, job)], if job.error.Some? then [] else NodesOfAll(Some(task.id), job.followups), f);
    assert [(task, job)][1..] == [];
  }

  lemma TotalOfAll(parent: Option<string>, jobs: seq<Job>, f: Node -> nat)
    requires jobs != []
    ensures Total(NodesOfAll(parent, jobs), f) ==
      Total(Nodes(Full(parent, jobs[0]), jobs[0]), f) + Total(NodesOfAll(parent, jobs[1..]), f)
  {
    TotalMore(Nodes(Full(parent, jobs[0]), jobs[0]), NodesOfAll(parent, jobs[1..]), f);
  }

  /* The lists of a forest, counted */

  lemma OwnMessages(task: Task, job: Job, m: Msg)
    ensures Occ([Running(task.id)], m) + Occ([Finished(task.id, job.error)], m) == Telling(m)((task, job))
  {}

  lemma {:induction false} MessagesCount(task: Task, job: Job, m: Msg)
    ensures Occ(Messages(task, job), m) == Total(Nodes(task, job), Telling(m))
    decreases job, 0
  {
    var rest := if job.error.Some? then [] else MessagesOfAll(Some(task.id), job.followups);
    OccMore([Running(task.id)], MessagesAfter(task, job), m);
    OccMore([Finished(task.id, job.error)], rest, m);
    OwnMessages(task, job, m);
    TotalOfFirst(task, job, Telling(m));
    if job.error.None? { MessagesCountAll(Some(task.id), job.followups, m); }
  }

  lemma {:induction false} MessagesCountAll(parent: Option<string>, jobs: seq<Job>, m: Msg)
    ensures Occ(MessagesOfAll(parent, jobs), m) == Total(NodesOfAll(parent, jobs), Telling(m))
    decreases jobs, 1
  {
    if jobs != [] {
      var task := Full(parent, jobs[0]);
      MessagesCount(task, jobs[0], m);
      MessagesCountAll(parent, jobs[1..], m);
      OccMore(Messages(task, jobs[0]), MessagesOfAll(parent, jobs[1..]), m);
      TotalOfAll(parent, jobs, Telling(m));
    }
  }

  lemma {:induction false} OutputsCount(task: Task, job: Job, o: string)
    ensures Occ(Outputs(job), o) == Total(Nodes(task, job), Giving(o))
    decreases job, 0
  {
    TotalOfFirst(task, job, Giving(o));
    if job.error.None? {
      OccMore(job.outputs, OutputsOfAll(job.followups), o);
      OutputsCountAll(Some(task.id), job.followups, o);
    }
  }

  lemma {:induction false} OutputsCountAll(parent: Option<string>, jobs: seq<Job>, o: string)
    ensures Occ(OutputsOfAll(jobs), o) == Total(NodesOfAll(parent, jobs), Giving(o))
    decreases jobs, 1
  {
    if jobs != [] {
      OutputsCount(Full(parent, jobs[0]), jobs[0], o);
      OutputsCountAll(parent, jobs[1..], o);
      OccMore(Outputs(jobs[0]), OutputsOfAll(jobs[1..]), o);
      TotalOfAll(parent, jobs, Giving(o));
    }
  }

  lemma {:induction false} ErrorsCount(task: Task, job: Job, e: string)
    ensures Occ(Errors(job), e) == Total(Nodes(task, job), Failing(e))
    decreases job, 0
  {
    TotalOfFirst(task, job, Failing(e));
    if job.error.None? { ErrorsCountAll(Some(task.id), job.followups, e); }
  }

  lemma {:induction false} ErrorsCountAll(parent: Option<string>, jobs: seq<Job>, e: string)
    ensures Occ(ErrorsOfAll(jobs), e) == Total(NodesOfAll(parent, jobs), Failing(e))
    decreases jobs, 1
  {
    if jobs != [] {
      ErrorsCount(Full(parent, jobs[0]), jobs[0], e);
      ErrorsCountAll(parent, jobs[1..], e);
      OccMore(Errors(jobs[0]), ErrorsOfAll(jobs[1..]), e);
      TotalOfAll(parent, jobs, Failing(e));
    }
  }

  lemma {:induction false} TasksCount(nodes: seq<Node>, t: Task)
    ensures Occ(TasksOf(nodes), t) == Total(nodes, Being(t))
  {
    if nodes != [] {
      TasksCount(nodes[1..], t);
      assert TasksOf(nodes)[1..] == TasksOf(nodes[1..]);
    }
  }

  /* Runs */

  /** Over the executed jobs: every task is called as often as it is a job's, every message is sent as often as a
      job tells it, every output is in the result as often as the successful jobs give it; and an error is
      returned exactly when some job fails, one that a job fails with. */
  ghost predicate Counted(s: State, nodes: seq<Node>) {
    && (forall t :: multiset(s.calls)[t] == Total(nodes, Being(t)))
    && (forall m :: multiset(s.messages)[m] == Total(nodes, Telling(m)))
    && (forall o :: multiset(s.outputs)[o] == Total(nodes, Giving(o)))
    && (Returned(s).None? <==> forall n | n in nodes :: n.1.error == None)
    && (Returned(s).Some? ==> exists n :: n in nodes && n.1.error == Returned(s))
  }

  lemma NoErrors(nodes: seq<Node>, errors: seq<string>)
    requires forall e :: Occ(errors, e) == Total(nodes, Failing(e))
    ensures errors == [] <==> forall n | n in nodes :: n.1.error == None
    ensures forall e | e in errors :: exists n :: n in nodes && n.1.error == Some(e)
  {
    forall e ensures e in errors <==> exists n :: n in nodes && n.1.error == Some(e) {
      OccIsCount(errors, e);
      assert e in errors <==> e in multiset(errors);
      TotalZero(nodes, Failing(e));
    }
    forall n | n in nodes && n.1.error != None ensures errors != [] {
      assert n.1.error == Some(n.1.error.value) && n.1.error.value in errors;
    }
    if errors != [] { assert errors[0] in errors; }
  }

  lemma CountsFromLists(s: State, nodes: seq<Node>, outputs: seq<string>, errors: seq<string>, messages: seq<Msg>)
    requires Accounted(s, TasksOf(nodes), outputs, errors, messages)
    requires forall m :: Occ(messages, m) == Total(nodes, Telling(m))
    requires forall o :: Occ(outputs, o) == Total(nodes, Giving(o))
    requires forall e :: Occ(errors, e) == Total(nodes, Failing(e))
    ensures Counted(s, nodes)
  {
    forall t ensures multiset(s.calls)[t] == Total(nodes, Being(t)) {
      TasksCount(nodes, t);
      OccIsCount(TasksOf(nodes), t);
    }
    forall m ensures multiset(s.messages)[m] == Total(nodes, Telling(m)) { OccIsCount(messages, m); }
    forall o ensures multiset(s.outputs)[o] == Total(nodes, Giving(o)) { OccIsCount(outputs, o); }
    NoErrors(nodes, errors);
  }

  /** Whatever the interleaving of `ExecuteMany`. */
  lemma ExecuteManyCounts(limit: int, roots: seq<Job>, schedule: seq<nat>)
    requires Feasible(StartMany(limit, roots), schedule) && Final(Run(StartMany(limit, roots), schedule))
    ensures Counted(Run(StartMany(limit, roots), schedule), NodesOfAll(None, roots))
  {
    ExecuteManyAccounts(limit, roots, schedule);
    NodesAreJobsAll(None, roots);
    forall m { MessagesCountAll(None, roots, m); }
    forall o { OutputsCountAll(None, roots, o); }
    forall e { ErrorsCountAll(None, roots, e); }
    CountsFromLists(Run(StartMany(limit, roots), schedule), NodesOfAll(None, roots),
                    OutputsOfAll(roots), ErrorsOfAll(roots), MessagesOfAll(None, roots));
  }

  /** Whatever the interleaving of `Execute`. */
  lemma ExecuteCounts(limit: int, root: Job, schedule: seq<nat>)
    requires Feasible(StartOne(limit, root), schedule) && Final(Run(StartOne(limit, root), schedule))
    ensures Counted(Run(StartOne(limit, root), schedule), Nodes(root.task, root))
  {
    ExecuteAccounts(limit, root, schedule);
    NodesAreJobs(root.task, root);
    forall m { MessagesCount(root.task, root, m); }
    forall o { OutputsCount(root.task, root, o); }
    forall e { ErrorsCount(root.task, root, e); }
    CountsFromLists(Run(StartOne(limit, root), schedule), Nodes(root.task, root),
                    Outputs(root), Errors(root), Messages(root.task, root));
  }

  /** The executed jobs are those at the ends of chains from the roots. */
  lemma NodeIffChain(roots: seq<Job>, n: Node)
    ensures n in NodesOfAll(None, roots) <==>
      exists r: nat, path: seq<nat> :: r < |roots| && At(roots[r].task, roots[r], path) == Some(n)
  {
    if n in NodesOfAll(None, roots) { var r, path := ChainToNodeAll(None, roots, n); }
    if r: nat, path: seq<nat> :| r < |roots| && At(roots[r].task, roots[r], path) == Some(n) {
      JobIsNode(None, roots, roots[r]);
      NodeAtChain(roots, roots[r].task, roots[r], path);
    }
  }

  lemma {:induction false} NodeAtChain(roots: seq<Job>, task: Task, job: Job, path: seq<nat>)
    requires (task, job) in NodesOfAll(None, roots) && At(task, job, path).Some?
    ensures At(task, job, path).value in NodesOfAll(None, roots)
    decreases |path|
  {
    if path != [] {
      var f := job.followups[path[0]];
      FollowupIsNodeOfAll(None, roots, (task, job), (Full(Some(task.id), f), f));
      NodeAtChain(roots, Full(Some(task.id), f), f, path[1..]);
    }
  }

  lemma {:induction false} ChainToNode(task: Task, job: Job, n: Node) returns (path: seq<nat>)
    requires n in Nodes(task, job)
    ensures At(task, job, path) == Some(n)
    decreases job, 0
  {
    if n == (task, job) {
      path := [];
    } else {
      var i, rest := ChainToNodeAll(Some(task.id), job.followups, n);
      path := [i] + rest;
      assert path[1..] == rest;
    }
  }

  lemma {:induction false} ChainToNodeAll(parent: Option<string>, jobs: seq<Job>, n: Node)
    returns (i: nat, path: seq<nat>)
    requires n in NodesOfAll(parent, jobs)
    ensures i < |jobs| && At(Full(parent, jobs[i]), jobs[i], path) == Some(n)
    decreases jobs, 1
  {
    if n in Nodes(Full(parent, jobs[0]), jobs[0]) {
      i := 0;
      path := ChainToNode(Full(parent, jobs[0]), jobs[0], n);
    } else {
      var rest := jobs[1..];
      var j;
      j, path := ChainToNodeAll(parent, rest, n);
      i := j + 1;
      assert rest[j] == jobs[i];
    }
  }

  /* The error that is returned */

  /** The error of the first call that returned one. */
  function FirstFailure(messages: seq<Msg>): Option<string> {
    if messages == [] then None
    else if messages[0].Failure? then Some(messages[0].error)
    else FirstFailure(messages[1..])
  }

  lemma {:induction false} FirstFailureMore(messages: seq<Msg>, m: Msg)
    ensures FirstFailure(messages + [m]) ==
      if FirstFailure(messages).Some? then FirstFailure(messages) else if m.Failure? then Some(m.error) else None
  {
    if messages == [] {
      assert [m][1..] == [];
      assert messages + [m] == [m];
    } else {
      FirstFailureMore(messages[1..], m);
      assert (messages + [m])[1..] == messages[1..] + [m];
    }
  }

  lemma StepReturnsFirst(s: State, i: nat)
    requires Returned(s) == FirstFailure(s.messages) && Enabled(s, i)
    ensures Returned(Step(s, i)) == FirstFailure(Step(s, i).messages)
  {
    match s.workers[i].phase
    case Ready(task, _) => FirstFailureMore(s.messages, Running(task.id));
    case InCall(task, job) =>
      if job.error.Some? {
        FirstFailureMore(s.messages, Failure(task.id, job.error.value));
      } else {
        FirstFailureMore(s.messages, Success(task.id));
      }
    case Spawning(_, _, _) =>
  }

  /** In every run, over or not, the error to be returned is that of the first call that returned one. */
  lemma {:induction false} ReturnsFirstFailure(s: State, schedule: seq<nat>)
    requires Returned(s) == FirstFailure(s.messages) && Feasible(s, schedule)
    ensures Returned(Run(s, schedule)) == FirstFailure(Run(s, schedule).messages)
    decreases |schedule|
  {
    if schedule != [] {
      StepReturnsFirst(s, schedule[0]);
      ReturnsFirstFailure(Step(s, schedule[0]), schedule[1..]);
    }
  }

  /* The order of a call's messages */

  predicate Ends(id: string, m: Msg) {
    (m.Success? && m.id == id) || (m.Failure? && m.id == id)
  }

  function Ending(id: string): Msg -> nat {
    (m: Msg) => if Ends(id, m) then 1 else 0
  }

  function Beginning(id: string): Msg -> nat {
    (m: Msg) => if m == Running(id) then 1 else 0
  }

  function InCallOf(id: string): Worker -> nat {
    (w: Worker) => if w.phase.InCall? && w.phase.task.id == id then 1 else 0
  }

  /** As many calls have been announced as have ended or are under way: each is announced before it ends. */
  predicate Announced(s: State, id: string) {
    Total(s.messages, Beginning(id)) == Total(s.messages, Ending(id)) + Sum(InCallOf(id), s.workers)
  }

  lemma OneMessage(messages: seq<Msg>, m: Msg, f: Msg -> nat)
    ensures Total(messages + [m], f) == Total(messages, f) + f(m)
  {
    TotalMore(messages, [m], f);
    assert [m][1..] == [];
  }

  lemma StepAnnounces(s: State, i: nat, id: string)
    requires Announced(s, id) && Enabled(s, i)
    ensures Announced(Step(s, i), id)
  {
    SumStep(InCallOf(id), s, i);
    match s.workers[i].phase
    case Ready(task, _) =>
      OneMessage(s.messages, Running(task.id), Beginning(id));
      OneMessage(s.messages, Running(task.id), Ending(id));
    case InCall(task, job) =>
      var m := if job.error.None? then Success(task.id) else Failure(task.id, job.error.value);
      OneMessage(s.messages, m, Beginning(id));
      OneMessage(s.messages, m, Ending(id));
    case Spawning(_, _, _) =>
  }

  /** So it is in every run, over or not. */
  lemma {:induction false} RunAnnounces(s: State, schedule: seq<nat>, id: string)
    requires Announced(s, id) && Feasible(s, schedule)
    ensures Announced(Run(s, schedule), id)
    decreases |schedule|
  {
    if schedule != [] {
      StepAnnounces(s, schedule[0], id);
      RunAnnounces(Step(s, schedule[0]), schedule[1..], id);
    }
  }

  lemma StartsAnnounced(limit: int, roots: seq<Job>, root: Job, id: string)
    ensures Announced(StartMany(limit, roots), id) && Announced(StartOne(limit, root), id)
  {
    var a, b := StartMany(limit, roots).workers, StartOne(limit, root).workers;
    assert a[..0] == [] && b[..0] == [];
    assert Sum(InCallOf(id), a) == Sum(InCallOf(id), a[..0]) + InCallOf(id)(a[0]);
    assert Sum(InCallOf(id), b) == Sum(InCallOf(id), b[..0]) + InCallOf(id)(b[0]);
  }
}
