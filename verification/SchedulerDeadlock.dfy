/** When the scheduler gets stuck. A goroutine starts its followups while it still holds its own slot
    (scheduler.go:84-91), so with a limit the group can fill up with goroutines that all wait for a slot. */
module SchedulerDeadlock {
  import opened Scheduler

  /* Every run ends */

  /** The steps a goroutine executing a job still takes, with those of all its followups. */
  function Steps(job: Job): nat
    decreases job, 0
  {
    2 + if job.error.Some? then 0 else 1 + StepsOfAll(job.followups)
  }

  function StepsOfAll(jobs: seq<Job>): nat
    decreases jobs, 1
  {
    if jobs == [] then 0 else 1 + Steps(jobs[0]) + StepsOfAll(jobs[1..])
  }

  function StepsLeft(w: Worker): nat {
    match w.phase
    case Ready(_, job) => Steps(job)
    case InCall(_, job) => Steps(job) - 1
    case Spawning(_, todo, _) => 1 + StepsOfAll(todo)
    case Done => 0
  }

  /** Every step, of whichever goroutine, leaves one step less: all runs that come to an end take the same
      number of steps, and no run takes more. */
  lemma {:induction false} RunsEnd(s: State, schedule: seq<nat>)
    requires Feasible(s, schedule)
    ensures |schedule| + Sum(StepsLeft, Run(s, schedule).workers) == Sum(StepsLeft, s.workers)
    decreases |schedule|
  {
    if schedule != [] {
      SumStep(StepsLeft, s, schedule[0]);
      RunsEnd(Step(s, schedule[0]), schedule[1..]);
    }
  }

  /* Stuck states */

  /** A state is stuck exactly when every slot is held, every goroutine still running waits for one to
      start a followup or a root, and there is such a goroutine. */
  lemma StuckIffAllBlocked(s: State)
    requires WellFormed(s)
    ensures Stuck(s) <==>
      && 0 <= s.limit == Held(s)
      && (forall w | w in s.workers :: w.phase == Done || Blocked(w))
      && (exists w :: w in s.workers && Blocked(w))
  {
    if Stuck(s) {
      forall w | w in s.workers && w.phase != Done ensures Blocked(w) && !FreeSlot(s) {
        var i :| 0 <= i < |s.workers| && s.workers[i] == w;
        assert !Enabled(s, i);
      }
      var w :| w in s.workers && w.phase != Done;
      assert Blocked(w);
    }
  }

  /* How many goroutines can wait at once */

  /** The most goroutines holding a slot that can wait at the same time, among those executing a job and
      its followups. A goroutine waits while some followup is not started, so not once the last one is. */
  function Width(job: Job): nat
    decreases job, 0
  {
    if job.error.Some? then 0 else SpawnWidth(true, job.followups)
  }

  /** The same for a goroutine that still has to start these jobs. */
  function SpawnWidth(slot: bool, jobs: seq<Job>): nat
    decreases jobs, 1
  {
    if jobs == [] then 0
    else if |jobs| == 1 then
      if slot && Width(jobs[0]) == 0 then 1 else Width(jobs[0])
    else Width(jobs[0]) + SpawnWidth(slot, jobs[1..])
  }

  function WidthLeft(w: Worker): nat {
    match w.phase
    case Ready(_, job) => if job.error.Some? then 0 else SpawnWidth(w.slot, job.followups)
    case InCall(_, job) => if job.error.Some? then 0 else SpawnWidth(w.slot, job.followups)
    case Spawning(_, todo, _) => SpawnWidth(w.slot, todo)
    case Done => 0
  }

  lemma {:induction false} WaitingIsWide(jobs: seq<Job>)
    requires jobs != []
    ensures SpawnWidth(true, jobs) >= 1
  {
    if |jobs| > 1 { WaitingIsWide(jobs[1..]); }
  }

  /** The step starts the last job of a goroutine that holds a slot, and nothing below that job can wait:
      the goroutine waited in vain for its slot, and cannot wait any more. */
  predicate Wasted(w: Worker) {
    Blocked(w) && w.slot && |w.phase.todo| == 1 && Width(w.phase.todo[0]) == 0
  }

  lemma WidthStep(s: State, i: nat)
    requires Enabled(s, i)
    ensures Sum(WidthLeft, Step(s, i).workers) + (if Wasted(s.workers[i]) then 1 else 0) == Sum(WidthLeft, s.workers)
  {
    SumStep(WidthLeft, s, i);
    var w := s.workers[i];
    if Blocked(w) {
      var child := Step(s, i).workers[|s.workers|];
      assert WidthLeft(child) == Width(w.phase.todo[0]);
      if |w.phase.todo| == 1 {
        assert w.phase.todo[1..] == [];
      }
    }
  }

  lemma {:induction false} WidthNeverGrows(s: State, schedule: seq<nat>)
    requires Feasible(s, schedule)
    ensures Sum(WidthLeft, Run(s, schedule).workers) <= Sum(WidthLeft, s.workers)
    decreases |schedule|
  {
    if schedule != [] {
      WidthStep(s, schedule[0]);
      WidthNeverGrows(Step(s, schedule[0]), schedule[1..]);
    }
  }

  lemma StuckIsWide(s: State)
    requires WellFormed(s) && Stuck(s)
    ensures s.limit <= Sum(WidthLeft, s.workers)
  {
    StuckIffAllBlocked(s);
    forall w | w in s.workers ensures Holds(w) <= WidthLeft(w) {
      if Holds(w) == 1 { WaitingIsWide(w.phase.todo); }
    }
    SumBounds(Holds, WidthLeft, s.workers);
  }

  /** With a slot free, if every step that can be taken wastes its wait, then no more goroutines can wait
      at once than hold a slot now. */
  lemma AllWastedIsNarrow(s: State)
    requires FreeSlot(s)
    ensures (forall j | 0 <= j < |s.workers| && Enabled(s, j) :: Wasted(s.workers[j]))
        ==> Sum(WidthLeft, s.workers) <= Held(s)
  {
    if forall j | 0 <= j < |s.workers| && Enabled(s, j) :: Wasted(s.workers[j]) {
      forall w | w in s.workers ensures WidthLeft(w) <= Holds(w) {
        var j :| 0 <= j < |s.workers| && s.workers[j] == w;
        assert w.phase != Done ==> Enabled(s, j);
      }
      SumBounds(WidthLeft, Holds, s.workers);
    }
  }

  lemma {:induction false} FinalIsNarrow(ws: seq<Worker>)
    requires forall w | w in ws :: w.phase == Done
    ensures Sum(WidthLeft, ws) == 0
  {
    if ws != [] {
      assert forall w | w in ws[..|ws| - 1] :: w in ws;
      FinalIsNarrow(ws[..|ws| - 1]);
      assert ws[|ws| - 1] in ws;
    }
  }

  /** While enough goroutines can still come to wait, a step can be taken that keeps it so, or the state
      is stuck. */
  lemma SomeStepKeepsWidth(s: State) returns (i: nat)
    requires WellFormed(s) && 1 <= s.limit <= Sum(WidthLeft, s.workers) && !Stuck(s)
    ensures Enabled(s, i) && !Wasted(s.workers[i])
  {
    assert !Final(s) by {
      if Final(s) { FinalIsNarrow(s.workers); }
    }
    i :| i < |s.workers| && Enabled(s, i);
    if Wasted(s.workers[i]) {
      AllWastedIsNarrow(s);
      i :| 0 <= i < |s.workers| && Enabled(s, i) && !Wasted(s.workers[i]);
    }
  }

  /** From a wide enough state some schedule gets stuck. */
  lemma {:induction false} WideGetsStuck(s: State) returns (schedule: seq<nat>)
    requires WellFormed(s) && 1 <= s.limit <= Sum(WidthLeft, s.workers)
    ensures Feasible(s, schedule) && Stuck(Run(s, schedule))
    decreases Sum(StepsLeft, s.workers)
  {
    if Stuck(s) {
      schedule := [];
    } else {
      var i := SomeStepKeepsWidth(s);
      SumStep(StepsLeft, s, i);
      WidthStep(s, i);
      StepWellFormed(s, i);
      var rest := WideGetsStuck(Step(s, i));
      schedule := [i] + rest;
      assert schedule[1..] == rest;
    }
  }

  ghost predicate CanDeadlock(s: State) {
    exists schedule: seq<nat> :: Feasible(s, schedule) && Stuck(Run(s, schedule))
  }

  /** With a limit of one or more, some interleaving deadlocks if and only if the limit is at most the
      number of goroutines that can wait at once. */
  lemma DeadlockIffWide(s: State)
    requires WellFormed(s) && s.limit >= 1
    ensures CanDeadlock(s) <==> s.limit <= Sum(WidthLeft, s.workers)
  {
    if s.limit <= Sum(WidthLeft, s.workers) {
      var schedule := WideGetsStuck(s);
    }
    if schedule: seq<nat> :| Feasible(s, schedule) && Stuck(Run(s, schedule)) {
      RunWellFormed(s, schedule);
      StuckIsWide(Run(s, schedule));
      WidthNeverGrows(s, schedule);
    }
  }

  /** Without a limit no interleaving deadlocks. */
  lemma NoLimitNoDeadlock(s: State)
    requires WellFormed(s) && s.limit < 0
    ensures !CanDeadlock(s)
  {
    forall schedule: seq<nat> | Feasible(s, schedule) ensures !Stuck(Run(s, schedule)) {
      RunWellFormed(s, schedule);
      StuckIffAllBlocked(Run(s, schedule));
    }
  }

  /** With a limit of zero nothing is ever started. */
  lemma {:induction false} LimitZero(s: State, schedule: seq<nat>)
    requires WellFormed(s) && s.limit == 0 && |s.workers| == 1 && Feasible(s, schedule)
    ensures |Run(s, schedule).workers| == 1
    ensures !MayStart(s.workers[0]) ==> !MayStart(Run(s, schedule).workers[0])
    decreases |schedule|
  {
    if schedule != [] {
      StepWellFormed(s, schedule[0]);
      SumStep(Holds, s, schedule[0]);
      assert Step(s, schedule[0]).workers == s.workers[0 := Step(s, schedule[0]).workers[0]];
      LimitZero(Step(s, schedule[0]), schedule[1..]);
    }
  }

  /** The goroutine has, or may come to have, something to start. */
  predicate MayStart(w: Worker) {
    match w.phase
    case Ready(_, job) => job.error.None? && job.followups != []
    case InCall(_, job) => job.error.None? && job.followups != []
    case Spawning(_, todo, _) => todo != []
    case Done => false
  }

  lemma NothingToStart(s: State)
    requires WellFormed(s) && s.limit == 0 && |s.workers| == 1 && !MayStart(s.workers[0])
    ensures !CanDeadlock(s)
  {
    forall schedule: seq<nat> | Feasible(s, schedule) ensures !Stuck(Run(s, schedule)) {
      LimitZero(s, schedule);
      RunWellFormed(s, schedule);
      StuckIffAllBlocked(Run(s, schedule));
    }
  }

  lemma StartsWellFormed(s: State)
    requires |s.workers| == 1 && !s.workers[0].slot
    ensures WellFormed(s) && Sum(WidthLeft, s.workers) == WidthLeft(s.workers[0])
  {
    assert s.workers[..0] == [];
    assert Sum(Holds, s.workers) == Sum(Holds, s.workers[..0]) + Holds(s.workers[0]);
    assert Sum(WidthLeft, s.workers) == Sum(WidthLeft, s.workers[..0]) + WidthLeft(s.workers[0]);
  }

  /** `ExecuteMany` can deadlock, under some interleaving, exactly when the limit is zero and there is a
      root, or the limit is positive and at most the number of goroutines that can wait at once. */
  lemma ExecuteManyDeadlocks(limit: int, roots: seq<Job>)
    ensures CanDeadlock(StartMany(limit, roots)) <==>
      if limit == 0 then roots != [] else 0 < limit <= SpawnWidth(false, roots)
  {
    var s := StartMany(limit, roots);
    StartsWellFormed(s);
    if limit < 0 {
      NoLimitNoDeadlock(s);
    } else if limit > 0 {
      DeadlockIffWide(s);
    } else if roots == [] {
      NothingToStart(s);
    } else {
      StuckIffAllBlocked(s);
      assert s.workers[0] in s.workers;
      assert Feasible(s, []) && Stuck(Run(s, []));
    }
  }

  /** `Execute` likewise: its root waits without holding a slot. */
  lemma ExecuteDeadlocks(limit: int, root: Job)
    ensures CanDeadlock(StartOne(limit, root)) <==>
      root.error.None? && if limit == 0 then root.followups != [] else 0 < limit <= SpawnWidth(false, root.followups)
  {
    var s := StartOne(limit, root);
    StartsWellFormed(s);
    if limit < 0 {
      NoLimitNoDeadlock(s);
    } else if limit > 0 {
      DeadlockIffWide(s);
    } else if !MayStart(s.workers[0]) {
      NothingToStart(s);
    } else {
      var s1 := Step(s, 0);
      var s2 := Step(s1, 0);
      var schedule: seq<nat> := [0, 0];
      assert schedule[1..] == [0] && schedule[1..][1..] == [];
      assert Feasible(s, schedule) && Run(s, schedule) == s2;
      RunWellFormed(s, schedule);
      assert s2.workers[..0] == [];
      assert Sum(Holds, s2.workers) == Sum(Holds, s2.workers[..0]) + Holds(s2.workers[0]);
      StuckIffAllBlocked(s2);
      assert s2.workers[0] in s2.workers;
    }
  }

  /** The jobs that succeed and have followups, the only ones whose goroutine can wait. */
  function Emitters(job: Job): nat
    decreases job, 0
  {
    if job.error.Some? || job.followups == [] then 0 else 1 + EmittersOfAll(job.followups)
  }

  function EmittersOfAll(jobs: seq<Job>): nat
    decreases jobs, 1
  {
    if jobs == [] then 0 else Emitters(jobs[0]) + EmittersOfAll(jobs[1..])
  }

  lemma {:induction false} WidthWithinEmitters(job: Job)
    ensures Width(job) <= Emitters(job)
    decreases job, 0
  {
    if job.error.None? && job.followups != [] { SpawnWithinEmitters(true, job.followups); }
  }

  lemma {:induction false} SpawnWithinEmitters(slot: bool, jobs: seq<Job>)
    requires jobs != []
    ensures SpawnWidth(slot, jobs) <= EmittersOfAll(jobs) + if slot then 1 else 0
    decreases jobs, 1
  {
    WidthWithinEmitters(jobs[0]);
    if |jobs| > 1 {
      SpawnWithinEmitters(slot, jobs[1..]);
    } else {
      assert jobs[1..] == [];
    }
  }

  /** With fewer jobs that emit followups than slots, every run of `ExecuteMany` that cannot go on is over. */
  lemma FewEmittersComplete(limit: int, roots: seq<Job>, schedule: seq<nat>)
    requires limit > EmittersOfAll(roots)
    requires Feasible(StartMany(limit, roots), schedule)
    requires var t := Run(StartMany(limit, roots), schedule);
      forall i: nat | i < |t.workers| :: !Enabled(t, i)
    ensures Final(Run(StartMany(limit, roots), schedule))
  {
    if roots != [] { SpawnWithinEmitters(false, roots); }
    ExecuteManyDeadlocks(limit, roots);
    assert !Stuck(Run(StartMany(limit, roots), schedule));
  }
}
