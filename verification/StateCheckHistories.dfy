/** The state checker agrees with running the child every time, over every history of a workspace; and
    exactly when it skips. */
module StateCheckHistories {
  import opened Options
  import opened Tasks
  import opened StateCheck

  /* What is assumed of the libraries and of the child */

  /** No two checksums collide, nor with the zero that stands for no arguments; what is written to be hashed
      tells apart arguments and task lists exactly when hashing sees a difference; and a state file decodes to
      what was encoded, as JSON brings it back; so does part of one if it decodes at all, and an empty file does
      not. */
  ghost predicate Sound(libs: Libs) {
    && (forall a, b :: libs.digest(a) == libs.digest(b) ==> a == b)
    && (forall a, b | libs.argsCode(a).Some? && libs.argsCode(a) == libs.argsCode(b) :: Hashed(a) == Hashed(b))
    && (forall a | libs.argsCode(a).Some? :: libs.digest(libs.argsCode(a).value) != 0)
    && (forall f, g | libs.tasksCode(f).Some? && libs.tasksCode(f) == libs.tasksCode(g) :: AsHashed(f) == AsHashed(g))
    && (forall f, g | AsHashed(f) == AsHashed(g) :: libs.tasksCode(f) == libs.tasksCode(g))
    && (forall s :: libs.decode(libs.encode(s)) == Some(DecodedSaved(s)))
    && (forall s, n | 0 <= n <= |libs.encode(s)| ::
          libs.decode(libs.encode(s)[..n]) in {None, Some(DecodedSaved(s))})
    && libs.decode([]) == None
  }

  lemma ArgsSumSeparates(libs: Libs, a: Value, b: Value)
    requires Sound(libs) && ArgsSum(libs, a).Some? && ArgsSum(libs, a) == ArgsSum(libs, b)
    ensures Hashed(a) == Hashed(b)
  {}

  lemma TasksSumSeparates(libs: Libs, f: seq<Task>, g: seq<Task>)
    requires Sound(libs) && TasksSum(libs, f).Some?
    ensures TasksSum(libs, f) == TasksSum(libs, g) <==> AsHashed(f) == AsHashed(g)
  {}

  lemma FilesSumSeparates(libs: Libs, a: Dir, p: seq<string>, b: Dir, q: seq<string>)
    requires Sound(libs) && Contents(libs, a, p).Some?
    ensures FilesSum(libs, a, p) == FilesSum(libs, b, q) <==> Contents(libs, a, p) == Contents(libs, b, q)
  {}

  /** Two calls that the child may not tell apart: same ID, executor and input patterns, arguments that hash
      alike, and the same bytes matched by the patterns. */
  predicate SameCall(libs: Libs, t: Task, source: Dir, u: Task, source': Dir) {
    && t.id == u.id && t.executor == u.executor
    && Hashed(t.args) == Hashed(u.args) && Elems(t.inputs) == Elems(u.inputs)
    && Contents(libs, source, Elems(t.inputs)).Some?
    && Contents(libs, source, Elems(t.inputs)) == Contents(libs, source', Elems(u.inputs))
  }

  predicate SameResult(a: Outcome, b: Outcome) {
    a.error == b.error && a.outputs == b.outputs && a.followups == b.followups
  }

  /** The child's result is a function of what it may tell apart, and it leaves the state file alone. */
  ghost predicate Deterministic(libs: Libs, child: Child) {
    && (forall t, source, dir, u, source', dir' | SameCall(libs, t, source, u, source') ::
          SameResult(child(t, source, dir), child(u, source', dir')))
    && (forall t, source, dir :: SameState(child(t, source, dir).dir, dir))
  }

  predicate SameState(a: Dir, b: Dir) {
    if STATE_FILE in b then STATE_FILE in a && a[STATE_FILE] == b[STATE_FILE] else STATE_FILE !in a
  }

  /* Histories */

  datatype World = World(source: Dir, output: map<string, Dir>)

  function DirOf(w: World, id: string): Dir {
    if id in w.output then w.output[id] else map[]
  }

  /** Anyone may edit the source tree, replace a task's output files, keeping its state file or not, or
      overwrite the state file with something that does not decode. Calls pass a fresh result, may fail in
      the child, and may be interrupted while saving. */
  datatype Event =
    | EditSource(source: Dir)
    | EditOutput(id: string, files: Dir, keep: bool)
    | Corrupt(id: string, bytes: Bytes)
    | Call(task: Task, fault: Fault)

  function Fresh(libs: Libs, child: Child, w: World, tsk: Task, fault: Fault): Outcome {
    Check(libs, child, w.source, DirOf(w, tsk.id), tsk, [], [], fault)
  }

  function Apply(libs: Libs, child: Child, w: World, e: Event): World {
    match e
    case EditSource(source) => w.(source := source)
    case EditOutput(id, files, keep) =>
      var dir := DirOf(w, id);
      var files' := files - {STATE_FILE};
      w.(output := w.output[id := if keep && STATE_FILE in dir then files'[STATE_FILE := dir[STATE_FILE]] else files'])
    case Corrupt(id, bytes) =>
      if libs.decode(bytes).Some? then w else w.(output := w.output[id := DirOf(w, id)[STATE_FILE := bytes]])
    case Call(task, fault) =>
      w.(output := w.output[task.id := Fresh(libs, child, w, task, fault).dir])
  }

  function After(libs: Libs, child: Child, source: Dir, h: seq<Event>): World {
    if h == [] then World(source, map[])
    else Apply(libs, child, After(libs, child, source, h[..|h| - 1]), h[|h| - 1])
  }

  /* Every state file that decodes was written by a successful call */

  /** What a state file holds after the call on `t` that succeeded; `ran` is what the call left in the
      output directory, with the state file created. */
  ghost predicate WrittenBy(libs: Libs, child: Child, s: Saved, t: Task, source: Dir, before: Dir, ran: Dir) {
    var o := child(t, source, before);
    var f := Fingerprint(libs, source, ran, t, o.outputs, o.followups);
    o.error.None? && ran == o.dir[STATE_FILE := []] && f.Some? && s == DecodedSaved(f.value)
  }

  ghost predicate Genuine(libs: Libs, child: Child, id: string, s: Saved) {
    exists t: Task, source, before, ran :: t.id == id && WrittenBy(libs, child, s, t, source, before, ran)
  }

  ghost predicate GenuineDir(libs: Libs, child: Child, id: string, dir: Dir) {
    ReadState(libs, dir).Some? ==> Genuine(libs, child, id, ReadState(libs, dir).value)
  }

  lemma SaveKeepsGenuine(libs: Libs, child: Child, source: Dir, dir: Dir, tsk: Task, fault: Fault)
    requires Sound(libs) && GenuineDir(libs, child, tsk.id, dir)
    requires child(tsk, source, dir).error.None? && SameState(child(tsk, source, dir).dir, dir)
    ensures var o := child(tsk, source, dir);
      GenuineDir(libs, child, tsk.id, Save(libs, source, o.dir, tsk, o.outputs, o.followups, fault).0)
  {
    var o := child(tsk, source, dir);
    if fault != MkdirFails && fault != CreateFails {
      var created := o.dir[STATE_FILE := []];
      var f := Fingerprint(libs, source, created, tsk, o.outputs, o.followups);
      if f.Some? { assert WrittenBy(libs, child, DecodedSaved(f.value), tsk, source, dir, created); }
    }
  }

  lemma CallKeepsGenuine(libs: Libs, child: Child, w: World, tsk: Task, fault: Fault)
    requires Sound(libs) && Deterministic(libs, child) && GenuineDir(libs, child, tsk.id, DirOf(w, tsk.id))
    ensures GenuineDir(libs, child, tsk.id, Fresh(libs, child, w, tsk, fault).dir)
  {
    var dir := DirOf(w, tsk.id);
    if !Hit(libs, w.source, dir, tsk) {
      var o := child(tsk, w.source, dir);
      assert SameState(o.dir, dir);
      assert [] + o.outputs == o.outputs && [] + o.followups == o.followups;
      if o.error.None? { SaveKeepsGenuine(libs, child, w.source, dir, tsk, fault); }
    }
  }

  lemma {:induction false} HistoryKeepsGenuine(libs: Libs, child: Child, source: Dir, h: seq<Event>, id: string)
    requires Sound(libs) && Deterministic(libs, child)
    ensures GenuineDir(libs, child, id, DirOf(After(libs, child, source, h), id))
  {
    if h != [] {
      var w, e := After(libs, child, source, h[..|h| - 1]), h[|h| - 1];
      HistoryKeepsGenuine(libs, child, source, h[..|h| - 1], id);
      if e.Call? && e.task.id == id { CallKeepsGenuine(libs, child, w, e.task, e.fault); }
    }
  }

  /** A state that matches was written by a call that the child cannot tell from this one. */
  lemma MatchIsSameCall(libs: Libs, child: Child, s: Saved, tsk: Task, source: Dir, dir: Dir,
                        t: Task, source': Dir, before: Dir, ran: Dir)
    requires Sound(libs) && t.id == tsk.id && WrittenBy(libs, child, s, t, source', before, ran)
    requires Matches(libs, source, dir, tsk, s)
    ensures SameCall(libs, t, source', tsk, source)
    ensures var o := child(t, source', before);
      s.outputs == o.outputs && AsHashed(s.followups) == AsHashed(o.followups)
    ensures Contents(libs, dir, s.outputs) == Contents(libs, ran, s.outputs)
  {
    var o := child(t, source', before);
    ArgsSumSeparates(libs, t.args, tsk.args);
    TasksSumSeparates(libs, o.followups, s.followups);
    assert Elems(t.inputs) == Elems(OmitEmpty(t.inputs));
  }

  /** The bytes that the outputs match are those that a successful call left, one that the child cannot tell
      from this one. */
  ghost predicate AsLeft(libs: Libs, child: Child, tsk: Task, source: Dir, dir: Dir, outputs: seq<string>) {
    exists t, source', before ::
      && SameCall(libs, t, source', tsk, source)
      && child(t, source', before).error.None?
      && Contents(libs, dir, outputs).Some?
      && Contents(libs, dir, outputs) == Contents(libs, child(t, source', before).dir[STATE_FILE := []], outputs)
  }

  /** So it holds what the child would return now, and the outputs are as the child left them. */
  lemma MatchIsNow(libs: Libs, child: Child, s: Saved, tsk: Task, source: Dir, dir: Dir)
    requires Sound(libs) && Deterministic(libs, child) && Genuine(libs, child, tsk.id, s)
    requires Matches(libs, source, dir, tsk, s)
    ensures var now := child(tsk, source, dir);
      now.error.None? && s.outputs == now.outputs && AsHashed(s.followups) == AsHashed(now.followups)
    ensures AsLeft(libs, child, tsk, source, dir, s.outputs)
  {
    var t: Task, source', before, ran :|
      t.id == tsk.id && WrittenBy(libs, child, s, t, source', before, ran);
    MatchIsSameCall(libs, child, s, tsk, source, dir, t, source', before, ran);
    assert SameResult(child(t, source', before), child(tsk, source, dir));
  }

  /** The same outputs, the same followups as far as hashing sees, and the same error unless saving failed. */
  predicate Agrees(cached: Outcome, now: Outcome) {
    && cached.outputs == now.outputs
    && AsHashed(cached.followups) == AsHashed(now.followups)
    && (cached.error == now.error || (now.error.None? && cached.error == Some(SAVE_FAILED)))
  }

  lemma ReplayAgrees(libs: Libs, child: Child, w: World, tsk: Task, fault: Fault)
    requires Sound(libs) && Deterministic(libs, child) && GenuineDir(libs, child, tsk.id, DirOf(w, tsk.id))
    requires Hit(libs, w.source, DirOf(w, tsk.id), tsk)
    ensures var cached := Fresh(libs, child, w, tsk, fault);
      && Agrees(cached, child(tsk, w.source, DirOf(w, tsk.id)))
      && AsLeft(libs, child, tsk, w.source, DirOf(w, tsk.id), cached.outputs)
  {
    var dir := DirOf(w, tsk.id);
    var s := ReadState(libs, dir).value;
    MatchIsNow(libs, child, s, tsk, w.source, dir);
    assert [] + s.outputs == s.outputs && [] + s.followups == s.followups;
  }

  lemma MissAgrees(libs: Libs, child: Child, w: World, tsk: Task, fault: Fault)
    requires !Hit(libs, w.source, DirOf(w, tsk.id), tsk)
    ensures Agrees(Fresh(libs, child, w, tsk, fault), child(tsk, w.source, DirOf(w, tsk.id)))
  {
    var now := child(tsk, w.source, DirOf(w, tsk.id));
    assert [] + now.outputs == now.outputs && [] + now.followups == now.followups;
  }

  /** After every history, a call with a fresh result agrees with what the child would give now; and when it
      is skipped, its output files are still those that the child left. */
  lemma CacheIsTransparent(libs: Libs, child: Child, source: Dir, h: seq<Event>, tsk: Task, fault: Fault)
    requires Sound(libs) && Deterministic(libs, child)
    ensures var w := After(libs, child, source, h);
      var cached := Fresh(libs, child, w, tsk, fault);
      && Agrees(cached, child(tsk, w.source, DirOf(w, tsk.id)))
      && (Hit(libs, w.source, DirOf(w, tsk.id), tsk) ==>
            AsLeft(libs, child, tsk, w.source, DirOf(w, tsk.id), cached.outputs))
  {
    var w := After(libs, child, source, h);
    if Hit(libs, w.source, DirOf(w, tsk.id), tsk) {
      HistoryKeepsGenuine(libs, child, source, h, tsk.id);
      ReplayAgrees(libs, child, w, tsk, fault);
    } else {
      MissAgrees(libs, child, w, tsk, fault);
    }
  }
}
