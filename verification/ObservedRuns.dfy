/** The scheduler over the observable layer: each call's beginning and return trigger notifications, which are
    delivered at any time in between, and the session is closed when the run is over (pkg/driver/driver.go). */
module ObservedRuns {
  import opened Options
  import opened Seqs
  import opened Tasks
  import opened Scheduler
  import opened SchedulerTotals
  import opened SchedulerOrder
  import opened SchedulerCounts
  import opened Observer

  /** The scheduler's state and the session's. */
  datatype Layers = Layers(run: State, session: Session)

  /** A goroutine of the scheduler steps, a notification is delivered, or the session is closed. */
  datatype Move = Work(worker: nat) | Hand(note: nat) | Finish

  function Started(limit: int, roots: seq<Job>, listeners: nat): Layers {
    Layers(StartMany(limit, roots), Opened(listeners))
  }

  function CallOf(calls: seq<string>, id: string): (i: nat)
    requires id in calls
    ensures i < |calls| && calls[i] == id
  {
    if calls[0] == id then 0 else 1 + CallOf(calls[1..], id)
  }

  /** What a step of a goroutine is to the session: a call begins or returns, or nothing. */
  function Heard(l: Layers, i: nat): Option<Event>
    requires i < |l.run.workers|
  {
    match l.run.workers[i].phase
    case Ready(task, _) => Some(Begin(task.id))
    case InCall(task, job) =>
      if task.id in l.session.inFlight then Some(End(CallOf(l.session.inFlight, task.id), job.error)) else None
    case _ => None
  }

  /** The scheduler alone decides which goroutines can step; a call needs its session to be open. The session
      is closed once, when the run is over, and closing waits for the notifications. */
  predicate Allowed(l: Layers, m: Move) {
    match m
    case Work(i) =>
      Enabled(l.run, i) && (Heard(l, i).Some? ==> Possible(l.session, Heard(l, i).value))
    case Hand(note) => Possible(l.session, Deliver(note))
    case Finish => Final(l.run) && Possible(l.session, Close)
  }

  function Moved(l: Layers, m: Move): Layers
    requires Allowed(l, m)
  {
    match m
    case Work(i) =>
      Layers(Step(l.run, i), if Heard(l, i).None? then l.session else Next(l.session, Heard(l, i).value))
    case Hand(note) => l.(session := Next(l.session, Deliver(note)))
    case Finish => l.(session := Next(l.session, Close))
  }

  predicate Plays(l: Layers, moves: seq<Move>)
    decreases |moves|
  {
    moves == [] || (Allowed(l, moves[0]) && Plays(Moved(l, moves[0]), moves[1..]))
  }

  function Played(l: Layers, moves: seq<Move>): Layers
    requires Plays(l, moves)
    decreases |moves|
  {
    if moves == [] then l else Played(Moved(l, moves[0]), moves[1..])
  }

  /** The schedule in a sequence of moves. */
  function Works(moves: seq<Move>): seq<nat> {
    if moves == [] then []
    else (if moves[0].Work? then [moves[0].worker] else []) + Works(moves[1..])
  }

  /* What every move keeps */

  function CallsOf(id: string): Worker -> nat {
    (w: Worker) => if w.phase.InCall? && w.phase.task.id == id then 1 else 0
  }

  /** The calls under way in the session are those of the goroutines. */
  ghost predicate SameCalls(l: Layers) {
    forall id :: multiset(l.session.inFlight)[id] == Sum(CallsOf(id), l.run.workers)
  }

  /** Each listener has received, or has pending, the messages of the run so far. */
  ghost predicate SameMessages(l: Layers) {
    forall k, m | 0 <= k < |l.session.received| ::
      multiset(l.session.received[k])[m] + multiset(l.session.pending)[(k, m)] == multiset(l.run.messages)[m]
  }

  predicate Addressed(s: Session) {
    forall n | n in s.pending :: n.0 < |s.received|
  }

  /** Only when the run is over and everything is delivered has the session been closed. */
  predicate ClosedLast(l: Layers) {
    l.session.open || (Final(l.run) && l.session.pending == [])
  }

  ghost predicate Coupled(l: Layers) {
    SameCalls(l) && SameMessages(l) && Addressed(l.session) && ClosedLast(l)
  }

  lemma StartCoupled(limit: int, roots: seq<Job>, listeners: nat)
    ensures Coupled(Started(limit, roots, listeners))
  {
    var l := Started(limit, roots, listeners);
    forall id ensures Sum(CallsOf(id), l.run.workers) == 0 {
      assert l.run.workers[..0] == [];
      assert Sum(CallsOf(id), l.run.workers) == Sum(CallsOf(id), l.run.workers[..0]) + CallsOf(id)(l.run.workers[0]);
    }
  }

  lemma CallUnderWay(l: Layers, i: nat)
    requires SameCalls(l) && i < |l.run.workers| && l.run.workers[i].phase.InCall?
    ensures l.run.workers[i].phase.task.id in l.session.inFlight
  {
    var id := l.run.workers[i].phase.task.id;
    SumPositive(CallsOf(id), l.run.workers, i);
    assert multiset(l.session.inFlight)[id] >= 1;
  }

  /** The session never holds up the scheduler: whatever goroutine can step, can step in the layers. */
  lemma WorkAllowed(l: Layers, i: nat)
    requires Coupled(l) && Enabled(l.run, i)
    ensures Allowed(l, Work(i))
  {
    assert l.run.workers[i] in l.run.workers;
    if l.run.workers[i].phase.InCall? { CallUnderWay(l, i); }
  }

  lemma WorkKeepsCalls(l: Layers, i: nat)
    requires Coupled(l) && Allowed(l, Work(i))
    ensures SameCalls(Moved(l, Work(i)))
  {
    var l' := Moved(l, Work(i));
    var w := l.run.workers[i];
    if w.phase.InCall? { CallUnderWay(l, i); }
    forall id ensures multiset(l'.session.inFlight)[id] == Sum(CallsOf(id), l'.run.workers) {
      SumStep(CallsOf(id), l.run, i);
      assert multiset(l.session.inFlight)[id] == Sum(CallsOf(id), l.run.workers);
      if w.phase.InCall? { DropCount(l.session.inFlight, CallOf(l.session.inFlight, w.phase.task.id), id); }
    }
  }

  /** The messages a goroutine's step sends are those it triggers. */
  lemma WorkTriggers(l: Layers, i: nat)
    requires SameCalls(l) && Allowed(l, Work(i))
    ensures Step(l.run, i).messages
         == l.run.messages + if Heard(l, i).None? then [] else Triggered(l.session, Heard(l, i).value)
  {
    if l.run.workers[i].phase.InCall? { CallUnderWay(l, i); }
  }

  lemma WorkKeepsMessages(l: Layers, i: nat)
    requires Coupled(l) && Allowed(l, Work(i))
    ensures SameMessages(Moved(l, Work(i)))
  {
    var l', e := Moved(l, Work(i)), Heard(l, i);
    WorkTriggers(l, i);
    if e.Some? {
      var s := l.session;
      assert |l'.session.received| == |s.received| by {
        if s.received != [] { NextAccounts(s, e.value, 0, Running("")); }
      }
      forall k, m | 0 <= k < |s.received|
        ensures multiset(l'.session.received[k])[m] + multiset(l'.session.pending)[(k, m)]
             == multiset(l'.run.messages)[m]
      {
        NextAccounts(s, e.value, k, m);
        assert multiset(s.received[k])[m] + multiset(s.pending)[(k, m)] == multiset(l.run.messages)[m];
        assert multiset(l'.run.messages)[m] == multiset(l.run.messages)[m] + multiset(Triggered(s, e.value))[m];
      }
    }
  }

  lemma HandKeepsMessages(l: Layers, note: nat)
    requires Coupled(l) && Allowed(l, Hand(note))
    ensures SameMessages(Moved(l, Hand(note)))
  {
    var s, t := l.session, Next(l.session, Deliver(note));
    forall k, m | 0 <= k < |t.received|
      ensures multiset(t.received[k])[m] + multiset(t.pending)[(k, m)] == multiset(l.run.messages)[m]
    {
      NextAccounts(s, Deliver(note), k, m);
      assert multiset(s.received[k])[m] + multiset(s.pending)[(k, m)] == multiset(l.run.messages)[m];
    }
  }

  lemma NextAddressed(s: Session, e: Event)
    requires Addressed(s) && Possible(s, e)
    ensures Addressed(Next(s, e))
  {
    var t := Next(s, e);
    forall n | n in t.pending ensures n.0 < |t.received| {
      if e.Deliver? { assert n in s.pending; }
    }
  }

  lemma MoveCoupled(l: Layers, m: Move)
    requires Coupled(l) && Allowed(l, m)
    ensures Coupled(Moved(l, m))
  {
    match m
    case Work(i) =>
      WorkKeepsCalls(l, i);
      WorkKeepsMessages(l, i);
      if Heard(l, i).Some? { NextAddressed(l.session, Heard(l, i).value); }
      assert l.run.workers[i] in l.run.workers;
    case Hand(note) =>
      HandKeepsMessages(l, note);
      NextAddressed(l.session, Deliver(note));
    case Finish =>
  }

  lemma {:induction false} PlayedCoupled(l: Layers, moves: seq<Move>)
    requires Coupled(l) && Plays(l, moves)
    ensures Coupled(Played(l, moves))
    ensures |Played(l, moves).session.received| == |l.session.received|
    decreases |moves|
  {
    if moves != [] {
      MoveCoupled(l, moves[0]);
      PlayedCoupled(Moved(l, moves[0]), moves[1..]);
    }
  }

  /* The two machines run together */

  /** Every sequence of moves follows a schedule of the scheduler alone. */
  lemma {:induction false} PlayedIsRun(l: Layers, moves: seq<Move>)
    requires Plays(l, moves)
    ensures Feasible(l.run, Works(moves)) && Run(l.run, Works(moves)) == Played(l, moves).run
    decreases |moves|
  {
    if moves != [] {
      PlayedIsRun(Moved(l, moves[0]), moves[1..]);
      if moves[0].Work? {
        assert Works(moves)[0] == moves[0].worker && Works(moves)[1..] == Works(moves[1..]);
      } else {
        assert Works(moves) == Works(moves[1..]);
      }
    }
  }

  /** And every schedule of the scheduler can be followed, whatever has been delivered before. */
  lemma {:induction false} RunIsPlayed(l: Layers, schedule: seq<nat>) returns (moves: seq<Move>)
    requires Coupled(l) && Feasible(l.run, schedule)
    ensures Plays(l, moves) && Works(moves) == schedule && Played(l, moves).run == Run(l.run, schedule)
    decreases |schedule|
  {
    if schedule == [] {
      moves := [];
    } else {
      var m := Work(schedule[0]);
      WorkAllowed(l, schedule[0]);
      MoveCoupled(l, m);
      var rest := RunIsPlayed(Moved(l, m), schedule[1..]);
      moves := [m] + rest;
      assert moves[1..] == rest;
      assert schedule == [schedule[0]] + schedule[1..];
    }
  }

  lemma {:induction false} PlayedMore(l: Layers, a: seq<Move>, b: seq<Move>)
    requires Plays(l, a) && Plays(Played(l, a), b)
    ensures Plays(l, a + b) && Played(l, a + b) == Played(Played(l, a), b)
    decreases |a|
  {
    if a == [] {
      assert a + b == b;
    } else {
      var rest := a[1..];
      PlayedMore(Moved(l, a[0]), rest, b);
      FirstOfBoth(a, b);
    }
  }

  lemma {:induction false} WorksMore(a: seq<Move>, b: seq<Move>)
    ensures Works(a + b) == Works(a) + Works(b)
    decreases |a|
  {
    if a == [] {
      assert a + b == b;
    } else {
      WorksMore(a[1..], b);
      FirstOfBoth(a, b);
    }
  }

  lemma FirstOfBoth(a: seq<Move>, b: seq<Move>)
    requires a != []
    ensures a + b != [] && (a + b)[0] == a[0] && (a + b)[1..] == a[1..] + b
  {}

  /** From a run that is over the notifications can all be delivered and the session closed. */
  lemma {:induction false} Drains(l: Layers) returns (moves: seq<Move>)
    requires Coupled(l) && Final(l.run)
    ensures Plays(l, moves) && Works(moves) == [] && Played(l, moves).run == l.run && !Played(l, moves).session.open
    decreases |l.session.pending|
  {
    if !l.session.open {
      moves := [];
    } else if l.session.pending == [] {
      moves := [Finish];
      assert moves[1..] == [];
    } else {
      assert l.session.pending[0] in l.session.pending;
      var m := Hand(0);
      MoveCoupled(l, m);
      var rest := Drains(Moved(l, m));
      moves := [m] + rest;
      assert moves[1..] == rest;
    }
  }

  /** Every schedule that completes has a sequence of moves that follows it and closes the session. */
  lemma EveryRunCloses(limit: int, roots: seq<Job>, schedule: seq<nat>, listeners: nat) returns (moves: seq<Move>)
    requires Feasible(StartMany(limit, roots), schedule) && Final(Run(StartMany(limit, roots), schedule))
    ensures var l := Started(limit, roots, listeners);
      && Plays(l, moves) && Works(moves) == schedule
      && Played(l, moves).run == Run(StartMany(limit, roots), schedule)
      && !Played(l, moves).session.open
  {
    var l := Started(limit, roots, listeners);
    StartCoupled(limit, roots, listeners);
    var working := RunIsPlayed(l, schedule);
    PlayedCoupled(l, working);
    var draining := Drains(Played(l, working));
    PlayedMore(l, working, draining);
    WorksMore(working, draining);
    moves := working + draining;
    assert schedule + [] == schedule;
  }

  /* When the session is closed */

  lemma {:induction false} NoCalls(id: string, ws: seq<Worker>)
    requires forall w | w in ws :: w.phase == Done
    ensures Sum(CallsOf(id), ws) == 0
  {
    if ws != [] {
      assert forall w | w in ws[..|ws| - 1] :: w in ws;
      NoCalls(id, ws[..|ws| - 1]);
      assert ws[|ws| - 1] in ws;
    }
  }

  lemma FirstCounts(ids: seq<string>)
    ensures ids != [] ==> multiset(ids)[ids[0]] > 0
  {}

  lemma NoneInFlight(l: Layers)
    requires SameCalls(l) && Final(l.run)
    ensures l.session.inFlight == []
  {
    forall id ensures multiset(l.session.inFlight)[id] == 0 {
      NoCalls(id, l.run.workers);
      assert multiset(l.session.inFlight)[id] == Sum(CallsOf(id), l.run.workers);
    }
    FirstCounts(l.session.inFlight);
  }

  /** Once the session is closed, the run is over, no call is under way, nothing is pending, and nothing is
      ever again, whatever happens to the session. */
  lemma ClosedIsQuiet(limit: int, roots: seq<Job>, listeners: nat, moves: seq<Move>)
    requires Plays(Started(limit, roots, listeners), moves)
    requires !Played(Started(limit, roots, listeners), moves).session.open
    ensures var l := Played(Started(limit, roots, listeners), moves);
      Final(l.run) && l.session.inFlight == [] && l.session.pending == [] && StaysQuiet(l.session)
  {
    var l := Played(Started(limit, roots, listeners), moves);
    StartCoupled(limit, roots, listeners);
    PlayedCoupled(Started(limit, roots, listeners), moves);
    NoneInFlight(l);
    forall events | Happens(l.session, events) ensures Eventually(l.session, events).pending == [] {
      ClosedStaysQuiet(l.session, events);
    }
  }

  function RunningAll(tasks: seq<Task>): seq<Msg> {
    seq(|tasks|, i requires 0 <= i < |tasks| => Running(tasks[i].id))
  }

  function SuccessAll(tasks: seq<Task>): seq<Msg> {
    seq(|tasks|, i requires 0 <= i < |tasks| => Success(tasks[i].id))
  }

  lemma OccOfBoth(a: seq<Task>, b: seq<Task>, m: Msg)
    ensures Occ(RunningAll(a + b), m) == Occ(RunningAll(a), m) + Occ(RunningAll(b), m)
    ensures Occ(SuccessAll(a + b), m) == Occ(SuccessAll(a), m) + Occ(SuccessAll(b), m)
  {
    assert RunningAll(a + b) == RunningAll(a) + RunningAll(b);
    assert SuccessAll(a + b) == SuccessAll(a) + SuccessAll(b);
    OccMore(RunningAll(a), RunningAll(b), m);
    OccMore(SuccessAll(a), SuccessAll(b), m);
  }

  /** How often a message occurs, in a forest where no call fails. */
  lemma {:induction false} MessagesWithoutErrors(task: Task, job: Job, m: Msg)
    requires Errors(job) == []
    ensures Occ(Messages(task, job), m) == Occ(RunningAll(Jobs(task, job)), m) + Occ(SuccessAll(Jobs(task, job)), m)
    decreases job, 0
  {
    var below, msgs := JobsOfAll(Some(task.id), job.followups), MessagesOfAll(Some(task.id), job.followups);
    MessagesWithoutErrorsAll(Some(task.id), job.followups, m);
    OccMore([Running(task.id)], [Success(task.id)] + msgs, m);
    OccMore([Success(task.id)], msgs, m);
    OccOfBoth([task], below, m);
    assert RunningAll([task]) == [Running(task.id)] && SuccessAll([task]) == [Success(task.id)];
  }

  lemma {:induction false} MessagesWithoutErrorsAll(parent: Option<string>, jobs: seq<Job>, m: Msg)
    requires ErrorsOfAll(jobs) == []
    ensures Occ(MessagesOfAll(parent, jobs), m)
         == Occ(RunningAll(JobsOfAll(parent, jobs)), m) + Occ(SuccessAll(JobsOfAll(parent, jobs)), m)
    decreases jobs, 1
  {
    if jobs != [] {
      var task := Full(parent, jobs[0]);
      assert Errors(jobs[0]) == [] && ErrorsOfAll(jobs[1..]) == [];
      MessagesWithoutErrors(task, jobs[0], m);
      MessagesWithoutErrorsAll(parent, jobs[1..], m);
      OccMore(Messages(task, jobs[0]), MessagesOfAll(parent, jobs[1..]), m);
      OccOfBoth(Jobs(task, jobs[0]), JobsOfAll(parent, jobs[1..]), m);
    }
  }

  lemma MessagesOfSuccess(roots: seq<Job>)
    requires ErrorsOfAll(roots) == []
    ensures multiset(MessagesOfAll(None, roots))
         == multiset(RunningAll(JobsOfAll(None, roots))) + multiset(SuccessAll(JobsOfAll(None, roots)))
  {
    var msgs, jobs := MessagesOfAll(None, roots), JobsOfAll(None, roots);
    var r, s := RunningAll(jobs), SuccessAll(jobs);
    forall m: Msg ensures multiset(msgs)[m] == multiset(r)[m] + multiset(s)[m] {
      MessagesWithoutErrorsAll(None, roots, m);
      OccIsCount(msgs, m);
      OccIsCount(r, m);
      OccIsCount(s, m);
    }
  }

  /** In every run, with errors or not, once the session is closed each listener has received exactly the
      messages of the calls that the forest amounts to: for each executed job one Running and, as it succeeds or
      fails, one Success or one Failure with its error. If no call failed that is one Running and one Success per
      executed task. */
  lemma ListenersHearEveryCall(limit: int, roots: seq<Job>, listeners: nat, moves: seq<Move>, k: nat)
    requires Plays(Started(limit, roots, listeners), moves)
    requires !Played(Started(limit, roots, listeners), moves).session.open && k < listeners
    ensures var l := Played(Started(limit, roots, listeners), moves);
      && |l.session.received| == listeners
      && multiset(l.session.received[k]) == multiset(MessagesOfAll(None, roots))
      && (forall m :: multiset(l.session.received[k])[m] == Total(NodesOfAll(None, roots), Telling(m)))
      && (Returned(l.run).None? ==>
            multiset(l.session.received[k])
              == multiset(RunningAll(JobsOfAll(None, roots))) + multiset(SuccessAll(JobsOfAll(None, roots))))
  {
    var l := Played(Started(limit, roots, listeners), moves);
    StartCoupled(limit, roots, listeners);
    PlayedCoupled(Started(limit, roots, listeners), moves);
    PlayedIsRun(Started(limit, roots, listeners), moves);
    ExecuteManyAccounts(limit, roots, Works(moves));
    ExecuteManyCounts(limit, roots, Works(moves));
    ReceivedIsSent(l, k);
    if Returned(l.run).None? { MessagesOfSuccess(roots); }
  }

  lemma ReceivedIsSent(l: Layers, k: nat)
    requires SameMessages(l) && l.session.pending == [] && k < |l.session.received|
    ensures multiset(l.session.received[k]) == multiset(l.run.messages)
  {
    forall m: Msg ensures multiset(l.session.received[k])[m] == multiset(l.run.messages)[m] {
      assert multiset(l.session.received[k])[m] + multiset(l.session.pending)[(k, m)] == multiset(l.run.messages)[m];
    }
  }
}
