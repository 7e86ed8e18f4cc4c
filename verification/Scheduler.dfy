/** The scheduler of pkg/executor/scheduler/scheduler.go as a machine that takes one step of one goroutine
    at a time. A schedule is the sequence of goroutines that step; every interleaving is a schedule.

    The group is errgroup's: `Go` waits while as many goroutines as the limit are running, a negative
    limit is no limit, and `Wait` returns the first error recorded. */
module Scheduler {
  import opened Names
  import opened Options
  import opened Tasks

  /** A task as its parent emits it, with what the child executor does when it is called on it: the error
      it returns, or the outputs and followups it adds. A run meets one such tree per root, whatever the
      child's reasons, so a statement about all forests is about all children. */
  datatype Job = Job(task: Task, error: Option<string>, outputs: seq<string>, followups: seq<Job>)

  /** What a goroutine does next: call the child executor, return from the call, start the followups
      still to do one by one and then add its outputs, or nothing any more. */
  datatype Phase =
    | Ready(task: Task, job: Job)
    | InCall(task: Task, job: Job)
    | Spawning(parent: Option<string>, todo: seq<Job>, outputs: seq<string>)
    | Done

  /** A goroutine of the group holds one of its slots until it is done; the caller's does not. */
  datatype Worker = Worker(slot: bool, phase: Phase)

  /** What the observable layer tells its listeners around each call (observable/messages.go). */
  datatype Msg = Running(id: string) | Success(id: string) | Failure(id: string, error: string)

  function Finished(id: string, error: Option<string>): Msg {
    if error.None? then Success(id) else Failure(id, error.value)
  }

  /** The goroutines, and what has been recorded so far: the calls begun, the outputs added, the errors
      returned, and the messages sent around the calls. */
  datatype State = State(limit: int, workers: seq<Worker>, calls: seq<Task>, outputs: seq<string>, errors: seq<string>,
                         messages: seq<Msg>)

  /** The task with its full ID: followups are prefixed with their parent's (scheduler.go:87). */
  function Full(parent: Option<string>, job: Job): Task {
    if parent.None? then job.task else job.task.(id := GetChild(parent.value, [job.task.id]))
  }

  /** `ExecuteMany`: the caller starts the roots in the group. */
  function StartMany(limit: int, roots: seq<Job>): State {
    State(limit, [Worker(false, Spawning(None, roots, []))], [], [], [], [])
  }

  /** `Execute`: the caller executes the root itself. */
  function StartOne(limit: int, root: Job): State {
    State(limit, [Worker(false, Ready(root.task, root))], [], [], [], [])
  }

  function Sum(f: Worker -> nat, ws: seq<Worker>): nat {
    if ws == [] then 0 else Sum(f, ws[..|ws| - 1]) + f(ws[|ws| - 1])
  }

  function Holds(w: Worker): nat {
    if w.slot && w.phase != Done then 1 else 0
  }

  function Held(s: State): nat {
    Sum(Holds, s.workers)
  }

  predicate FreeSlot(s: State) {
    s.limit < 0 || Held(s) < s.limit
  }

  predicate Blocked(w: Worker) {
    w.phase.Spawning? && w.phase.todo != []
  }

  predicate Enabled(s: State, i: nat) {
    i < |s.workers| && s.workers[i].phase != Done && (Blocked(s.workers[i]) ==> FreeSlot(s))
  }

  function Step(s: State, i: nat): State
    requires Enabled(s, i)
  {
    var w := s.workers[i];
    match w.phase
    case Ready(task, job) =>
      s.(workers := s.workers[i := w.(phase := InCall(task, job))],
         calls := s.calls + [task],
         messages := s.messages + [Running(task.id)])
    case InCall(task, job) =>
      var messages := s.messages + [Finished(task.id, job.error)];
      if job.error.Some? then
        s.(workers := s.workers[i := w.(phase := Done)],
           errors := s.errors + [job.error.value],
           messages := messages)
      else
        s.(workers := s.workers[i := w.(phase := Spawning(Some(task.id), job.followups, job.outputs))],
           messages := messages)
    case Spawning(parent, todo, outputs) =>
      if todo == [] then
        s.(workers := s.workers[i := w.(phase := Done)], outputs := s.outputs + outputs)
      else
        var child := Worker(true, Ready(Full(parent, todo[0]), todo[0]));
        s.(workers := s.workers[i := w.(phase := Spawning(parent, todo[1..], outputs))] + [child])
  }

  predicate Feasible(s: State, schedule: seq<nat>)
    decreases |schedule|
  {
    schedule == [] || (Enabled(s, schedule[0]) && Feasible(Step(s, schedule[0]), schedule[1..]))
  }

  function Run(s: State, schedule: seq<nat>): State
    requires Feasible(s, schedule)
    decreases |schedule|
  {
    if schedule == [] then s else Run(Step(s, schedule[0]), schedule[1..])
  }

  /** `Wait` has returned: every goroutine is done. */
  predicate Final(s: State) {
    forall w | w in s.workers :: w.phase == Done
  }

  /** The error that `Execute` and `ExecuteMany` return: the first recorded. */
  function Returned(s: State): Option<string> {
    if s.errors == [] then None else Some(s.errors[0])
  }

  predicate Stuck(s: State) {
    !Final(s) && forall i: nat | i < |s.workers| :: !Enabled(s, i)
  }

  /* Sums over goroutines */

  lemma {:induction false} SumUpdate(f: Worker -> nat, ws: seq<Worker>, i: nat, w: Worker)
    requires i < |ws|
    ensures Sum(f, ws[i := w]) + f(ws[i]) == Sum(f, ws) + f(w)
  {
    var n := |ws| - 1;
    if i == n {
      assert ws[i := w][..n] == ws[..n];
    } else {
      SumUpdate(f, ws[..n], i, w);
      assert ws[i := w][..n] == ws[..n][i := w];
    }
  }

  lemma SumAppend(f: Worker -> nat, ws: seq<Worker>, w: Worker)
    ensures Sum(f, ws + [w]) == Sum(f, ws) + f(w)
  {
    assert (ws + [w])[..|ws|] == ws;
  }

  lemma {:induction false} SumBounds(f: Worker -> nat, g: Worker -> nat, ws: seq<Worker>)
    requires forall w | w in ws :: f(w) <= g(w)
    ensures Sum(f, ws) <= Sum(g, ws)
  {
    if ws != [] {
      var n := |ws| - 1;
      assert forall w | w in ws[..n] :: w in ws;
      SumBounds(f, g, ws[..n]);
      assert ws[n] in ws;
    }
  }

  lemma {:induction false} SumPositive(f: Worker -> nat, ws: seq<Worker>, i: nat)
    requires i < |ws|
    ensures f(ws[i]) <= Sum(f, ws)
  {
    if i < |ws| - 1 { SumPositive(f, ws[..|ws| - 1], i); }
  }

  /** The sum after a step: the stepping goroutine's share changes, and a new goroutine adds its own. */
  lemma SumStep(f: Worker -> nat, s: State, i: nat)
    requires Enabled(s, i)
    ensures var w, w' := s.workers[i], Step(s, i).workers[i];
      Sum(f, Step(s, i).workers) + f(w) == Sum(f, s.workers) + f(w')
        + if Blocked(w) then f(Step(s, i).workers[|s.workers|]) else 0
    ensures |Step(s, i).workers| == |s.workers| + if Blocked(s.workers[i]) then 1 else 0
  {
    var w' := Step(s, i).workers[i];
    SumUpdate(f, s.workers, i, w');
    if Blocked(s.workers[i]) { SumAppend(f, s.workers[i := w'], Step(s, i).workers[|s.workers|]); }
  }

  /* Slots and calls in flight */

  /** Only the caller's goroutine, the first, holds no slot, and while it calls the child it is alone. */
  predicate WellFormed(s: State) {
    && s.workers != []
    && (forall i | 0 <= i < |s.workers| :: s.workers[i].slot <==> i > 0)
    && (s.workers[0].phase.Ready? || s.workers[0].phase.InCall? ==> |s.workers| == 1)
    && (s.limit >= 0 ==> Held(s) <= s.limit)
  }

  lemma StepWellFormed(s: State, i: nat)
    requires WellFormed(s) && Enabled(s, i)
    ensures WellFormed(Step(s, i))
  {
    SumStep(Holds, s, i);
  }

  lemma {:induction false} RunWellFormed(s: State, schedule: seq<nat>)
    requires WellFormed(s) && Feasible(s, schedule)
    ensures WellFormed(Run(s, schedule)) && Run(s, schedule).limit == s.limit
    decreases |schedule|
  {
    if schedule != [] {
      StepWellFormed(s, schedule[0]);
      RunWellFormed(Step(s, schedule[0]), schedule[1..]);
    }
  }

  function Calling(w: Worker): nat {
    if w.phase.InCall? then 1 else 0
  }

  function InFlight(s: State): nat {
    Sum(Calling, s.workers)
  }

  /** In every reachable state at most as many calls of the child executor are in flight as the limit, or
      one if the limit is zero. */
  lemma ConcurrencyBound(s: State, schedule: seq<nat>)
    requires WellFormed(s) && s.limit >= 0 && Feasible(s, schedule)
    ensures InFlight(Run(s, schedule)) <= if s.limit == 0 then 1 else s.limit
  {
    RunWellFormed(s, schedule);
    var t := Run(s, schedule);
    if t.workers[0].phase.InCall? {
      assert t.workers[..0] == [];
      assert Sum(Calling, t.workers) == Sum(Calling, t.workers[..0]) + Calling(t.workers[0]);
    } else {
      forall w | w in t.workers ensures Calling(w) <= Holds(w) {
        var i :| 0 <= i < |t.workers| && t.workers[i] == w;
      }
      SumBounds(Calling, Holds, t.workers);
    }
  }
}
