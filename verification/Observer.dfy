/** The observable executor (pkg/executor/observable/observer.go): every message goes to every listener in a
    goroutine of its own, counted by the session's wait group. The machine takes one event at a time. */
module Observer {
  import opened Options
  import opened Scheduler

  type Note = (nat, Msg)

  /** A session of the observable executor: whether it is open, the calls that have not returned, the
      notifications that have not been delivered, and what each listener has received. */
  datatype Session = Session(open: bool, inFlight: seq<string>, pending: seq<Note>, received: seq<seq<Msg>>)

  /** A call begins or returns, a goroutine delivers its notification, or `CloseSession` is done waiting. */
  datatype Event = Begin(id: string) | End(call: nat, error: Option<string>) | Deliver(note: nat) | Close

  function Opened(listeners: nat): Session {
    Session(true, [], [], seq(listeners, _ => []))
  }

  /** `trigger`: one notification per listener. */
  function Notes(listeners: nat, msg: Msg): seq<Note> {
    seq(listeners, l requires 0 <= l < listeners => (l, msg))
  }

  /** Calls need an open session to begin; those under way keep theirs and may return later. Closing waits
      for the notifications only. */
  predicate Possible(s: Session, e: Event) {
    match e
    case Begin(_) => s.open
    case End(call, _) => call < |s.inFlight|
    case Deliver(note) => note < |s.pending| && s.pending[note].0 < |s.received|
    case Close => s.open && s.pending == []
  }

  function Drop<T>(xs: seq<T>, i: nat): seq<T>
    requires i < |xs|
  {
    xs[..i] + xs[i + 1..]
  }

  function Next(s: Session, e: Event): Session
    requires Possible(s, e)
  {
    match e
    case Begin(id) =>
      s.(inFlight := s.inFlight + [id], pending := s.pending + Notes(|s.received|, Running(id)))
    case End(call, error) =>
      s.(inFlight := Drop(s.inFlight, call),
         pending := s.pending + Notes(|s.received|, Finished(s.inFlight[call], error)))
    case Deliver(note) =>
      var (l, msg) := s.pending[note];
      s.(pending := Drop(s.pending, note), received := s.received[l := s.received[l] + [msg]])
    case Close => s.(open := false)
  }

  predicate Happens(s: Session, events: seq<Event>)
    decreases |events|
  {
    events == [] || (Possible(s, events[0]) && Happens(Next(s, events[0]), events[1..]))
  }

  function Eventually(s: Session, events: seq<Event>): Session
    requires Happens(s, events)
    decreases |events|
  {
    if events == [] then s else Eventually(Next(s, events[0]), events[1..])
  }

  /** The messages triggered by an event, and by a sequence of them. */
  function Triggered(s: Session, e: Event): seq<Msg>
    requires Possible(s, e)
  {
    match e
    case Begin(id) => [Running(id)]
    case End(call, error) => [Finished(s.inFlight[call], error)]
    case _ => []
  }

  function Sent(s: Session, events: seq<Event>): seq<Msg>
    requires Happens(s, events)
    decreases |events|
  {
    if events == [] then [] else Triggered(s, events[0]) + Sent(Next(s, events[0]), events[1..])
  }

  lemma {:induction false} NoteCount(listeners: nat, msg: Msg, l: nat, m: Msg)
    ensures multiset(Notes(listeners, msg))[(l, m)] == if l < listeners && m == msg then 1 else 0
  {
    if listeners > 0 {
      NoteCount(listeners - 1, msg, l, m);
      assert Notes(listeners, msg) == Notes(listeners - 1, msg) + [(listeners - 1, msg)];
    }
  }

  lemma DropCount<T>(xs: seq<T>, i: nat, x: T)
    requires i < |xs|
    ensures multiset(xs)[x] == multiset(Drop(xs, i))[x] + if xs[i] == x then 1 else 0
  {
    assert xs == xs[..i] + [xs[i]] + xs[i + 1..];
  }

  lemma NextAccounts(s: Session, e: Event, l: nat, m: Msg)
    requires Possible(s, e) && l < |s.received|
    ensures var t := Next(s, e);
      && |t.received| == |s.received|
      && multiset(t.received[l])[m] + multiset(t.pending)[(l, m)]
      == multiset(s.received[l])[m] + multiset(s.pending)[(l, m)] + multiset(Triggered(s, e))[m]
  {
    match e
    case Begin(id) => NoteCount(|s.received|, Running(id), l, m);
    case End(call, error) => NoteCount(|s.received|, Finished(s.inFlight[call], error), l, m);
    case Deliver(note) => DropCount(s.pending, note, (l, m));
    case Close =>
  }

  /** Whatever happens in whatever order, each listener has received, or has pending, exactly the messages
      sent. */
  lemma {:induction false} ListenersAccount(s: Session, events: seq<Event>, l: nat, m: Msg)
    requires Happens(s, events) && l < |s.received|
    ensures var t := Eventually(s, events);
      && |t.received| == |s.received|
      && multiset(t.received[l])[m] + multiset(t.pending)[(l, m)]
      == multiset(s.received[l])[m] + multiset(s.pending)[(l, m)] + multiset(Sent(s, events))[m]
    decreases |events|
  {
    if events != [] {
      NextAccounts(s, events[0], l, m);
      ListenersAccount(Next(s, events[0]), events[1..], l, m);
    }
  }

  /** Once a session is closed with no call under way, nothing is ever pending again. */
  lemma {:induction false} ClosedStaysQuiet(s: Session, events: seq<Event>)
    requires !s.open && s.inFlight == [] && s.pending == [] && Happens(s, events)
    ensures Eventually(s, events).pending == []
    decreases |events|
  {
    if events != [] { assert false; }
  }

  ghost predicate StaysQuiet(s: Session) {
    forall events | Happens(s, events) :: Eventually(s, events).pending == []
  }

  /** After `CloseSession` no notification is ever outstanding if and only if no call was under way when it
      was done waiting, or there is no listener: it does not wait for the calls themselves. */
  lemma CloseIsFinalIffIdle(s: Session)
    requires Possible(s, Close)
    ensures StaysQuiet(Next(s, Close)) <==> s.inFlight == [] || s.received == []
  {
    var t := Next(s, Close);
    if s.inFlight == [] {
      forall events | Happens(t, events) ensures Eventually(t, events).pending == [] { ClosedStaysQuiet(t, events); }
    } else if s.received == [] {
      forall events | Happens(t, events) ensures Eventually(t, events).pending == [] { NobodyListens(t, events); }
    } else {
      var events := [End(0, None)];
      assert events[1..] == [];
      assert Happens(t, events) && |Eventually(t, events).pending| == |s.received|;
    }
  }

  lemma {:induction false} NobodyListens(s: Session, events: seq<Event>)
    requires s.received == [] && s.pending == [] && Happens(s, events)
    ensures Eventually(s, events).pending == []
    decreases |events|
  {
    if events != [] { NobodyListens(Next(s, events[0]), events[1..]); }
  }

  /** Once everything is delivered, each listener has received what was sent, in some order. */
  lemma EachReceivesAll(listeners: nat, events: seq<Event>, l: nat)
    requires Happens(Opened(listeners), events) && l < listeners
    requires Eventually(Opened(listeners), events).pending == []
    ensures |Eventually(Opened(listeners), events).received| == listeners
    ensures multiset(Eventually(Opened(listeners), events).received[l]) == multiset(Sent(Opened(listeners), events))
  {
    var s := Opened(listeners);
    var t := Eventually(s, events);
    assert s.received[l] == [];
    ListenersAccount(s, events, l, Running(""));
    forall m: Msg ensures multiset(t.received[l])[m] == multiset(Sent(s, events))[m] {
      ListenersAccount(s, events, l, m);
    }
  }
}
