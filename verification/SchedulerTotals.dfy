/** What a run of the scheduler has done when it is over, whatever the interleaving. */
module SchedulerTotals {
  import opened Options
  import opened Seqs
  import opened Tasks
  import opened Scheduler

  /* What a forest amounts to: followups of a failed call count for nothing */

  /** The tasks to execute, parents first. */
  function Jobs(task: Task, job: Job): seq<Task>
    decreases job, 1
  {
    [task] + JobsAfter(task, job)
  }

  /** The tasks to execute once the task itself has been. */
  function JobsAfter(task: Task, job: Job): seq<Task>
    decreases job, 0
  {
    if job.error.Some? then [] else JobsOfAll(Some(task.id), job.followups)
  }

  function JobsOfAll(parent: Option<string>, jobs: seq<Job>): seq<Task>
    decreases jobs, 2
  {
    if jobs == [] then [] else Jobs(Full(parent, jobs[0]), jobs[0]) + JobsOfAll(parent, jobs[1..])
  }

  /** The outputs of the calls that succeed. */
  function Outputs(job: Job): seq<string>
    decreases job, 0
  {
    if job.error.Some? then [] else job.outputs + OutputsOfAll(job.followups)
  }

  function OutputsOfAll(jobs: seq<Job>): seq<string>
    decreases jobs, 1
  {
    if jobs == [] then [] else Outputs(jobs[0]) + OutputsOfAll(jobs[1..])
  }

  /** The errors of the calls that fail. */
  function Errors(job: Job): seq<string>
    decreases job, 0
  {
    if job.error.Some? then [job.error.value] else ErrorsOfAll(job.followups)
  }

  function ErrorsOfAll(jobs: seq<Job>): seq<string>
    decreases jobs, 1
  {
    if jobs == [] then [] else Errors(jobs[0]) + ErrorsOfAll(jobs[1..])
  }

  /** The messages around the calls. */
  function Messages(task: Task, job: Job): seq<Msg>
    decreases job, 1
  {
    [Running(task.id)] + MessagesAfter(task, job)
  }

  function MessagesAfter(task: Task, job: Job): seq<Msg>
    decreases job, 0
  {
    [Finished(task.id, job.error)] + if job.error.Some? then [] else MessagesOfAll(Some(task.id), job.followups)
  }

  function MessagesOfAll(parent: Option<string>, jobs: seq<Job>): seq<Msg>
    decreases jobs, 2
  {
    if jobs == [] then [] else Messages(Full(parent, jobs[0]), jobs[0]) + MessagesOfAll(parent, jobs[1..])
  }

  /* What is still to come from a goroutine */

  function JobsLeft(w: Worker): seq<Task> {
    match w.phase
    case Ready(task, job) => Jobs(task, job)
    case InCall(task, job) => JobsAfter(task, job)
    case Spawning(parent, todo, _) => JobsOfAll(parent, todo)
    case Done => []
  }

  function OutputsLeft(w: Worker): seq<string> {
    match w.phase
    case Ready(_, job) => Outputs(job)
    case InCall(_, job) => Outputs(job)
    case Spawning(_, todo, outputs) => outputs + OutputsOfAll(todo)
    case Done => []
  }

  function ErrorsLeft(w: Worker): seq<string> {
    match w.phase
    case Ready(_, job) => Errors(job)
    case InCall(_, job) => Errors(job)
    case Spawning(_, todo, _) => ErrorsOfAll(todo)
    case Done => []
  }

  function MessagesLeft(w: Worker): seq<Msg> {
    match w.phase
    case Ready(task, job) => Messages(task, job)
    case InCall(task, job) => MessagesAfter(task, job)
    case Spawning(parent, todo, _) => MessagesOfAll(parent, todo)
    case Done => []
  }

  function RecordedCalls(s: State): seq<Task> {
    s.calls
  }

  function RecordedOutputs(s: State): seq<string> {
    s.outputs
  }

  function RecordedErrors(s: State): seq<string> {
    s.errors
  }

  function RecordedMessages(s: State): seq<Msg> {
    s.messages
  }

  function StartedLeft<T>(left: Worker -> seq<T>, s: State, i: nat): seq<T>
    requires Enabled(s, i)
  {
    if Blocked(s.workers[i]) then left(Step(s, i).workers[|s.workers|]) else []
  }

  /** What a step records it takes from what its goroutine, and the one it starts, still had to come. */
  ghost predicate Exchanges<T(!new)>(left: Worker -> seq<T>, recorded: State -> seq<T>) {
    forall s, i: nat, x | Enabled(s, i) :: ExchangesAt(left, recorded, s, i, x)
  }

  predicate ExchangesAt<T(==)>(left: Worker -> seq<T>, recorded: State -> seq<T>, s: State, i: nat, x: T)
    requires Enabled(s, i)
  {
    Occ(recorded(s), x) + Occ(left(s.workers[i]), x) ==
      Occ(recorded(Step(s, i)), x) + Occ(left(Step(s, i).workers[i]), x) + Occ(StartedLeft(left, s, i), x)
  }

  lemma CallsExchange()
    ensures Exchanges(JobsLeft, RecordedCalls)
  {
    forall s, i: nat, x | Enabled(s, i) ensures ExchangesAt(JobsLeft, RecordedCalls, s, i, x) {
      match s.workers[i].phase
      case Ready(task, job) =>
        OccMore(s.calls, [task], x);
        OccMore([task], JobsAfter(task, job), x);
      case InCall(task, job) =>
      case Spawning(parent, todo, outputs) =>
        if todo != [] { OccMore(Jobs(Full(parent, todo[0]), todo[0]), JobsOfAll(parent, todo[1..]), x); }
    }
  }

  lemma OutputsExchange()
    ensures Exchanges(OutputsLeft, RecordedOutputs)
  {
    forall s, i: nat, x | Enabled(s, i) ensures ExchangesAt(OutputsLeft, RecordedOutputs, s, i, x) {
      match s.workers[i].phase
      case Ready(task, job) =>
      case InCall(task, job) =>
      case Spawning(parent, todo, outputs) =>
        OccMore(s.outputs, outputs, x);
        OccMore(outputs, OutputsOfAll(todo), x);
        if todo != [] {
          OccMore(Outputs(todo[0]), OutputsOfAll(todo[1..]), x);
          OccMore(outputs, OutputsOfAll(todo[1..]), x);
        }
    }
  }

  lemma ErrorsExchange()
    ensures Exchanges(ErrorsLeft, RecordedErrors)
  {
    forall s, i: nat, x | Enabled(s, i) ensures ExchangesAt(ErrorsLeft, RecordedErrors, s, i, x) {
      match s.workers[i].phase
      case Ready(task, job) =>
      case InCall(task, job) =>
        if job.error.Some? { OccMore(s.errors, [job.error.value], x); }
      case Spawning(parent, todo, outputs) =>
        if todo != [] { OccMore(Errors(todo[0]), ErrorsOfAll(todo[1..]), x); }
    }
  }

  lemma MessagesExchange()
    ensures Exchanges(MessagesLeft, RecordedMessages)
  {
    forall s, i: nat, x | Enabled(s, i) ensures ExchangesAt(MessagesLeft, RecordedMessages, s, i, x) {
      match s.workers[i].phase
      case Ready(task, job) =>
        OccMore(s.messages, [Running(task.id)], x);
        OccMore([Running(task.id)], MessagesAfter(task, job), x);
      case InCall(task, job) =>
        OccMore(s.messages, [Finished(task.id, job.error)], x);
        OccMore([Finished(task.id, job.error)],
                if job.error.Some? then [] else MessagesOfAll(Some(task.id), job.followups), x);
      case Spawning(parent, todo, outputs) =>
        if todo != [] { OccMore(Messages(Full(parent, todo[0]), todo[0]), MessagesOfAll(parent, todo[1..]), x); }
    }
  }

  /* Conservation, one element at a time */

  function Count<T(==)>(left: Worker -> seq<T>, x: T): Worker -> nat {
    (w: Worker) => Occ(left(w), x)
  }

  lemma StepConserves<T(!new)>(left: Worker -> seq<T>, recorded: State -> seq<T>, s: State, i: nat, x: T)
    requires Exchanges(left, recorded) && Enabled(s, i)
    ensures Occ(recorded(Step(s, i)), x) + Sum(Count(left, x), Step(s, i).workers)
         == Occ(recorded(s), x) + Sum(Count(left, x), s.workers)
  {
    assert ExchangesAt(left, recorded, s, i, x);
    SumStep(Count(left, x), s, i);
  }

  /** Recorded and still to come, together, are the same after every step. */
  lemma {:induction false} RunConserves<T(!new)>(left: Worker -> seq<T>, recorded: State -> seq<T>, s: State,
                                                 schedule: seq<nat>, x: T)
    requires Exchanges(left, recorded) && Feasible(s, schedule)
    ensures Occ(recorded(Run(s, schedule)), x) + Sum(Count(left, x), Run(s, schedule).workers)
         == Occ(recorded(s), x) + Sum(Count(left, x), s.workers)
    decreases |schedule|
  {
    if schedule != [] {
      StepConserves(left, recorded, s, schedule[0], x);
      RunConserves(left, recorded, Step(s, schedule[0]), schedule[1..], x);
    }
  }

  lemma {:induction false} DoneOwesNothing<T>(left: Worker -> seq<T>, ws: seq<Worker>, x: T)
    requires forall w | w in ws :: left(w) == []
    ensures Sum(Count(left, x), ws) == 0
  {
    if ws != [] {
      assert forall w | w in ws[..|ws| - 1] :: w in ws;
      DoneOwesNothing(left, ws[..|ws| - 1], x);
      assert ws[|ws| - 1] in ws;
    }
  }

  /** A run that starts with one goroutine and nothing recorded ends with what that goroutine had to come. */
  lemma FinalTotal<T(!new)>(left: Worker -> seq<T>, recorded: State -> seq<T>, s: State, schedule: seq<nat>)
    requires Exchanges(left, recorded) && Feasible(s, schedule) && Final(Run(s, schedule))
    requires |s.workers| == 1 && recorded(s) == [] && forall w: Worker | w.phase == Done :: left(w) == []
    ensures multiset(recorded(Run(s, schedule))) == multiset(left(s.workers[0]))
  {
    forall x: T ensures multiset(recorded(Run(s, schedule)))[x] == multiset(left(s.workers[0]))[x] {
      RunConserves(left, recorded, s, schedule, x);
      DoneOwesNothing(left, Run(s, schedule).workers, x);
      assert s.workers[..0] == [];
      assert Sum(Count(left, x), s.workers) == Sum(Count(left, x), s.workers[..0]) + Count(left, x)(s.workers[0]);
      OccIsCount(recorded(Run(s, schedule)), x);
      OccIsCount(left(s.workers[0]), x);
    }
  }

  /** When a run is over, every root and every followup of a successful call has been called exactly once,
      and nothing else has; the result holds the outputs of the successful calls; an error is returned
      exactly when some call failed, and it is the error of one that did; and there was one message
      before and one after each call. */
  predicate Accounted(s: State, jobs: seq<Task>, outputs: seq<string>, errors: seq<string>, messages: seq<Msg>) {
    && multiset(s.calls) == multiset(jobs)
    && multiset(s.outputs) == multiset(outputs)
    && (Returned(s).None? <==> errors == [])
    && (Returned(s).Some? ==> Returned(s).value in errors)
    && multiset(s.messages) == multiset(messages)
  }

  lemma FinalIsAccounted(s: State, schedule: seq<nat>)
    requires Feasible(s, schedule) && Final(Run(s, schedule))
    requires |s.workers| == 1 && s.calls == [] && s.outputs == [] && s.errors == [] && s.messages == []
    ensures var w := s.workers[0];
      Accounted(Run(s, schedule), JobsLeft(w), OutputsLeft(w), ErrorsLeft(w), MessagesLeft(w))
  {
    var t, w := Run(s, schedule), s.workers[0];
    CallsExchange();
    FinalTotal(JobsLeft, RecordedCalls, s, schedule);
    OutputsExchange();
    FinalTotal(OutputsLeft, RecordedOutputs, s, schedule);
    ErrorsExchange();
    FinalTotal(ErrorsLeft, RecordedErrors, s, schedule);
    MessagesExchange();
    FinalTotal(MessagesLeft, RecordedMessages, s, schedule);
    assert |multiset(t.errors)| == |t.errors| && |multiset(ErrorsLeft(w))| == |ErrorsLeft(w)|;
    if t.errors != [] { assert t.errors[0] in multiset(t.errors); }
  }

  lemma ExecuteManyAccounts(limit: int, roots: seq<Job>, schedule: seq<nat>)
    requires Feasible(StartMany(limit, roots), schedule) && Final(Run(StartMany(limit, roots), schedule))
    ensures Accounted(Run(StartMany(limit, roots), schedule),
                      JobsOfAll(None, roots), OutputsOfAll(roots), ErrorsOfAll(roots), MessagesOfAll(None, roots))
  {
    FinalIsAccounted(StartMany(limit, roots), schedule);
    assert [] + OutputsOfAll(roots) == OutputsOfAll(roots);
  }

  lemma ExecuteAccounts(limit: int, root: Job, schedule: seq<nat>)
    requires Feasible(StartOne(limit, root), schedule) && Final(Run(StartOne(limit, root), schedule))
    ensures Accounted(Run(StartOne(limit, root), schedule),
                      Jobs(root.task, root), Outputs(root), Errors(root), Messages(root.task, root))
  {
    FinalIsAccounted(StartOne(limit, root), schedule);
  }
}
