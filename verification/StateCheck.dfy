/** The state checker of pkg/executor/statecheck: it skips a task whose saved state matches, and otherwise
    runs it and saves its state. */
module StateCheck {
  import opened Options
  import opened Tasks

  type Bytes = seq<bv8>

  /** A directory: the contents of its files by name. */
  type Dir = map<string, Bytes>

  const STATE_FILE := "state.json"

  /** What a state file holds once decoded; the result is its outputs and followups. */
  datatype Saved = Saved(executor: string, inputs: Slice, outputs: seq<string>, followups: seq<Task>,
                         argsSum: nat, inputsSum: nat, outputsSum: nat, followupsSum: nat)

  /** The libraries: FNV over the bytes fed, what hashstructure writes (unless it fails) for arguments and
      for a list of followups, glob patterns against the names in a directory, and JSON. */
  datatype Libs = Libs(
    digest: Bytes -> nat,
    argsCode: Value -> Option<Bytes>,
    tasksCode: seq<Task> -> Option<Bytes>,
    glob: (string, set<string>) -> Option<seq<string>>,
    encode: Saved -> Bytes,
    decode: Bytes -> Option<Saved>)

  /** The child executor: what it returns when called on a task with the source directory and the task's
      output directory, and what it leaves in the latter. */
  datatype Outcome = Outcome(error: Option<string>, outputs: seq<string>, followups: seq<Task>, dir: Dir)
  type Child = (Task, Dir, Dir) -> Outcome

  /** An I/O error while saving; a write that fails may have written some of the encoded state. */
  datatype Fault = NoFault | MkdirFails | CreateFails | EncodeFails(written: nat)

  /* The functions that the methods compute */

  function OpenAll(dir: Dir, names: seq<string>): Option<Bytes> {
    if names == [] then Some([])
    else
      var front := OpenAll(dir, names[..|names| - 1]);
      var name := names[|names| - 1];
      if front.None? || name !in dir then None else Some(front.value + dir[name])
  }

  function Matched(libs: Libs, dir: Dir, pattern: string): Option<Bytes> {
    var names := libs.glob(pattern, dir.Keys);
    if names.None? then None else OpenAll(dir, names.value)
  }

  /** All that a checksum of files sees: the contents matched by the patterns, one after the other, with
      neither names nor boundaries. */
  function Contents(libs: Libs, dir: Dir, patterns: seq<string>): Option<Bytes> {
    if patterns == [] then Some([])
    else
      var front := Contents(libs, dir, patterns[..|patterns| - 1]);
      var last := Matched(libs, dir, patterns[|patterns| - 1]);
      if front.None? || last.None? then None else Some(front.value + last.value)
  }

  function FilesSum(libs: Libs, dir: Dir, patterns: seq<string>): Option<nat> {
    var bytes := Contents(libs, dir, patterns);
    if bytes.None? then None else Some(libs.digest(bytes.value))
  }

  function CodeSum(libs: Libs, code: Option<Bytes>): Option<nat> {
    if code.None? then None else Some(libs.digest(code.value))
  }

  function ArgsSum(libs: Libs, args: Value): Option<nat> {
    if args == Null then Some(0) else CodeSum(libs, libs.argsCode(args))
  }

  function TasksSum(libs: Libs, tasks: seq<Task>): Option<nat> {
    CodeSum(libs, libs.tasksCode(tasks))
  }

  function DecodedSaved(s: Saved): Saved {
    s.(inputs := OmitEmpty(s.inputs), followups := DecodedTasks(s.followups))
  }

  /** The state to save for a task, if everything can be hashed. */
  function Fingerprint(libs: Libs, source: Dir, dir: Dir, tsk: Task, outputs: seq<string>,
                       followups: seq<Task>): Option<Saved> {
    var a := ArgsSum(libs, tsk.args);
    var i := FilesSum(libs, source, Elems(tsk.inputs));
    var o := FilesSum(libs, dir, outputs);
    var f := TasksSum(libs, followups);
    if a.None? || i.None? || o.None? || f.None? then None
    else Some(Saved(tsk.executor, tsk.inputs, outputs, followups, a.value, i.value, o.value, f.value))
  }

  /** What is in the state file once the encoded state has been written, as far as it was. */
  function Written(encoded: Bytes, fault: Fault): Bytes {
    if fault.EncodeFails? && fault.written < |encoded| then encoded[..fault.written] else encoded
  }

  /** The output directory after saving, and whether saving succeeded. The file is created, and so emptied,
      before anything is hashed, and written last. */
  function Save(libs: Libs, source: Dir, dir: Dir, tsk: Task, outputs: seq<string>, followups: seq<Task>,
                fault: Fault): (Dir, bool) {
    if fault.MkdirFails? || fault.CreateFails? then (dir, false)
    else
      var created := dir[STATE_FILE := []];
      var saved := Fingerprint(libs, source, created, tsk, outputs, followups);
      if saved.None? then (created, false)
      else (created[STATE_FILE := Written(libs.encode(saved.value), fault)], !fault.EncodeFails?)
  }

  function ReadState(libs: Libs, dir: Dir): Option<Saved> {
    if STATE_FILE in dir then libs.decode(dir[STATE_FILE]) else None
  }

  /** The saved state still matches the task and the workspace. */
  predicate Matches(libs: Libs, source: Dir, dir: Dir, tsk: Task, s: Saved) {
    && tsk.executor == s.executor
    && ArgsSum(libs, tsk.args) == Some(s.argsSum)
    && tsk.inputs == s.inputs
    && FilesSum(libs, source, Elems(tsk.inputs)) == Some(s.inputsSum)
    && FilesSum(libs, dir, s.outputs) == Some(s.outputsSum)
    && TasksSum(libs, s.followups) == Some(s.followupsSum)
  }

  predicate Hit(libs: Libs, source: Dir, dir: Dir, tsk: Task) {
    ReadState(libs, dir).Some? && Matches(libs, source, dir, tsk, ReadState(libs, dir).value)
  }

  const SAVE_FAILED := "failed to save task state"

  /** Running the child on a result that already holds `outputs` and `followups`, and saving. */
  function Miss(libs: Libs, child: Child, source: Dir, dir: Dir, tsk: Task, outputs: seq<string>, followups: seq<Task>,
                fault: Fault): Outcome {
    var o := child(tsk, source, dir);
    var outs, fups := outputs + o.outputs, followups + o.followups;
    if o.error.Some? then Outcome(o.error, outs, fups, o.dir)
    else
      var saved := Save(libs, source, o.dir, tsk, outs, fups, fault);
      Outcome(if saved.1 then None else Some(SAVE_FAILED), outs, fups, saved.0)
  }

  /** The whole of `Execute`: the error, the result after, and the output directory after. */
  function Check(libs: Libs, child: Child, source: Dir, dir: Dir, tsk: Task, outputs: seq<string>,
                 followups: seq<Task>, fault: Fault): Outcome {
    if Hit(libs, source, dir, tsk) then
      var s := ReadState(libs, dir).value;
      Outcome(None, outputs + s.outputs, followups + s.followups, dir)
    else
      Miss(libs, child, source, dir, tsk, outputs, followups, fault)
  }

  /* The implementation */

  /** A hash being computed. */
  class Hasher {
    var fed: Bytes

    constructor ()
      ensures fed == []
    {
      fed := [];
    }

    method Write(bytes: Bytes)
      modifies this
      ensures fed == old(fed) + bytes
    {
      fed := fed + bytes;
    }

    method Reset()
      modifies this
      ensures fed == []
    {
      fed := [];
    }
  }

  /** A session: the source tree, and an output directory per task ID. */
  class Session {
    var source: Dir
    var output: map<string, Dir>

    function OutputDir(id: string): Dir
      reads this
    {
      if id in output then output[id] else map[]
    }

    method SetOutputDir(id: string, dir: Dir)
      modifies this`output
      ensures output == old(output)[id := dir]
    {
      output := output[id := dir];
    }
  }

  /** hashstructure is given the hasher, and resets it before it writes to it: what was fed to it does not
      matter to the sum, and what it leaves there is its own. */
  method HashAnyValue<T>(libs: Libs, code: T -> Option<Bytes>, isNil: bool, hasher: Hasher, params: T)
    returns (sum: Option<nat>)
    modifies hasher
    ensures isNil ==> sum == Some(0)
    ensures !isNil && code(params).None? ==> sum == None
    ensures !isNil && code(params).Some? ==> sum == Some(libs.digest(code(params).value))
  {
    if isNil { return Some(0); }
    hasher.Reset();
    var bytes := code(params);
    if bytes.None? { return None; }
    hasher.Write(bytes.value);
    assert [] + bytes.value == bytes.value;
    return Some(libs.digest(hasher.fed));
  }

  method HashFiles(libs: Libs, hasher: Hasher, root: Dir, files: seq<string>) returns (sum: Option<nat>)
    modifies hasher
    ensures var bytes := Contents(libs, root, files);
      sum == if bytes.None? then None else Some(libs.digest(old(hasher.fed) + bytes.value))
    ensures old(hasher.fed) == [] ==> sum == FilesSum(libs, root, files)
  {
    for i := 0 to |files|
      invariant var bytes := Contents(libs, root, files[..i]);
        bytes.Some? && hasher.fed == old(hasher.fed) + bytes.value
    {
      assert files[..i + 1][..i] == files[..i];
      var matches := libs.glob(files[i], root.Keys);
      if matches.None? {
        ContentsFails(libs, root, files, i);
        return None;
      }
      ghost var before := hasher.fed;
      var names := matches.value;
      for j := 0 to |names|
        invariant OpenAll(root, names[..j]).Some?
        invariant hasher.fed == before + OpenAll(root, names[..j]).value
      {
        assert names[..j + 1][..j] == names[..j];
        if names[j] !in root {
          OpenAllFails(root, names, j);
          ContentsFails(libs, root, files, i);
          return None;
        }
        hasher.Write(root[names[j]]);
      }
      assert names[..|names|] == names;
    }
    assert files[..|files|] == files;
    ghost var bytes := Contents(libs, root, files).value;
    assert [] + bytes == bytes;
    return Some(libs.digest(hasher.fed));
  }

  lemma {:induction false} OpenAllFails(dir: Dir, names: seq<string>, j: nat)
    requires j < |names| && names[j] !in dir
    ensures OpenAll(dir, names).None?
    decreases |names|
  {
    if j < |names| - 1 { OpenAllFails(dir, names[..|names| - 1], j); }
  }

  lemma {:induction false} ContentsFails(libs: Libs, dir: Dir, patterns: seq<string>, i: nat)
    requires i < |patterns| && Matched(libs, dir, patterns[i]).None?
    ensures Contents(libs, dir, patterns).None?
    decreases |patterns|
  {
    if i < |patterns| - 1 { ContentsFails(libs, dir, patterns[..|patterns| - 1], i); }
  }

  method SaveState(libs: Libs, session: Session, tsk: Task, result: Result, fault: Fault) returns (ok: bool)
    modifies session`output
    ensures var saved := Save(libs, session.source, old(session.OutputDir(tsk.id)), tsk,
                              result.outputs, result.followups, fault);
      && ok == saved.1
      && session.OutputDir(tsk.id) == saved.0
    ensures forall id | id != tsk.id :: session.OutputDir(id) == old(session.OutputDir(id))
  {
    if fault.MkdirFails? { return false; }
    session.SetOutputDir(tsk.id, session.OutputDir(tsk.id));
    if fault.CreateFails? { return false; }
    var created := session.OutputDir(tsk.id)[STATE_FILE := []];
    session.SetOutputDir(tsk.id, created);
    var state := HashState(libs, session.source, created, tsk, result);
    if state.None? { return false; }
    session.SetOutputDir(tsk.id, created[STATE_FILE := Written(libs.encode(state.value), fault)]);
    return !fault.EncodeFails?;
  }

  /** The middle of `SaveState`: one hasher for all the checksums. */
  method HashState(libs: Libs, source: Dir, taskOutput: Dir, tsk: Task, result: Result) returns (state: Option<Saved>)
    ensures state == Fingerprint(libs, source, taskOutput, tsk, result.outputs, result.followups)
  {
    var hasher := new Hasher();
    var argsSum := HashAnyValue(libs, libs.argsCode, tsk.args == Null, hasher, tsk.args);
    if argsSum.None? { return None; }
    hasher.Reset();

    var inputsSum := HashFiles(libs, hasher, source, Elems(tsk.inputs));
    if inputsSum.None? { return None; }
    hasher.Reset();

    var outputsSum := HashFiles(libs, hasher, taskOutput, result.outputs);
    if outputsSum.None? { return None; }

    var followupsSum := HashAnyValue(libs, libs.tasksCode, false, hasher, result.followups);
    if followupsSum.None? { return None; }
    hasher.Reset();

    return Some(Saved(tsk.executor, tsk.inputs, result.outputs, result.followups,
                      argsSum.value, inputsSum.value, outputsSum.value, followupsSum.value));
  }

  function Flag(raised: bool, name: string): seq<string> {
    if raised then [name] else []
  }

  function SumFlags(sum: Option<nat>, expected: nat, failed: string, differs: string): seq<string> {
    Flag(sum.None?, failed) + Flag(sum.Some? && sum.value != expected, differs)
  }

  /** What is reported about a saved state: first what the task says, then what the saved result does. */
  function Reported(libs: Libs, source: Dir, dir: Dir, tsk: Task, s: Saved): seq<string> {
    TaskReported(libs, source, tsk, s)
    + SumFlags(FilesSum(libs, dir, s.outputs), s.outputsSum, "!output-checksum-failed!", "output-checksum")
    + SumFlags(TasksSum(libs, s.followups), s.followupsSum, "!followup-checksum-failed!", "followup-checksum")
  }

  function TaskReported(libs: Libs, source: Dir, tsk: Task, s: Saved): seq<string> {
    Flag(tsk.executor != s.executor, "executor")
    + Flag(ArgsSum(libs, tsk.args) != Some(s.argsSum), "arguments-checksum")
    + Flag(tsk.inputs != s.inputs, "inputs")
    + Flag(FilesSum(libs, source, Elems(tsk.inputs)) != Some(s.inputsSum), "inputs-checksum")
  }

  /** The mismatches, none exactly when the saved state matches; and the saved result. */
  method DetectStateMismatches(libs: Libs, session: Session, tsk: Task)
    returns (mismatches: seq<string>, saved: Option<Saved>)
    ensures mismatches == [] <==> Hit(libs, session.source, session.OutputDir(tsk.id), tsk)
    ensures saved == ReadState(libs, session.OutputDir(tsk.id))
    ensures mismatches ==
      if STATE_FILE !in session.OutputDir(tsk.id) then ["<state missing>"]
      else if saved.None? then ["<state decode failed>"]
      else Reported(libs, session.source, session.OutputDir(tsk.id), tsk, saved.value)
  {
    var dir := session.OutputDir(tsk.id);
    if STATE_FILE !in dir { return ["<state missing>"], None; }
    saved := libs.decode(dir[STATE_FILE]);
    if saved.None? { return ["<state decode failed>"], None; }
    var hasher := new Hasher();
    mismatches := CompareTask(libs, hasher, session.source, tsk, saved.value);
    mismatches := CompareResult(libs, hasher, dir, saved.value, mismatches);
  }

  /** The first half of the comparison, of the task with the state. */
  method CompareTask(libs: Libs, hasher: Hasher, source: Dir, tsk: Task, state: Saved) returns (mismatches: seq<string>)
    requires hasher.fed == []
    modifies hasher
    ensures hasher.fed == [] && mismatches == TaskReported(libs, source, tsk, state)
  {
    mismatches := [];
    if tsk.executor != state.executor { mismatches := mismatches + ["executor"]; }
    ghost var executor := Flag(tsk.executor != state.executor, "executor");
    assert mismatches == executor;

    var argsSum := HashAnyValue(libs, libs.argsCode, tsk.args == Null, hasher, tsk.args);
    if argsSum != Some(state.argsSum) { mismatches := mismatches + ["arguments-checksum"]; }
    hasher.Reset();
    ghost var args := executor + Flag(argsSum != Some(state.argsSum), "arguments-checksum");
    assert mismatches == args;

    if tsk.inputs != state.inputs { mismatches := mismatches + ["inputs"]; }
    ghost var inputs := args + Flag(tsk.inputs != state.inputs, "inputs");
    assert mismatches == inputs;
    var inputsSum := HashFiles(libs, hasher, source, Elems(tsk.inputs));
    if inputsSum != Some(state.inputsSum) { mismatches := mismatches + ["inputs-checksum"]; }
    hasher.Reset();
    assert mismatches == inputs + Flag(inputsSum != Some(state.inputsSum), "inputs-checksum");
  }

  /** The second half, of the saved outputs and followups. */
  method CompareResult(libs: Libs, hasher: Hasher, dir: Dir, state: Saved, before: seq<string>)
    returns (mismatches: seq<string>)
    requires hasher.fed == []
    modifies hasher
    ensures mismatches == before
      + SumFlags(FilesSum(libs, dir, state.outputs), state.outputsSum, "!output-checksum-failed!", "output-checksum")
      + SumFlags(TasksSum(libs, state.followups), state.followupsSum, "!followup-checksum-failed!", "followup-checksum")
  {
    mismatches := before;
    var outputsSum := HashFiles(libs, hasher, dir, state.outputs);
    if outputsSum.None? {
      mismatches := mismatches + ["!output-checksum-failed!"];
    } else if outputsSum.value != state.outputsSum {
      mismatches := mismatches + ["output-checksum"];
    }
    hasher.Reset();
    ghost var outputs := before + SumFlags(outputsSum, state.outputsSum, "!output-checksum-failed!", "output-checksum");
    assert mismatches == outputs;

    var followupsSum := HashAnyValue(libs, libs.tasksCode, false, hasher, state.followups);
    if followupsSum.None? {
      mismatches := mismatches + ["!followup-checksum-failed!"];
    } else if followupsSum.value != state.followupsSum {
      mismatches := mismatches + ["followup-checksum"];
    }
    hasher.Reset();
    assert mismatches == outputs
      + SumFlags(followupsSum, state.followupsSum, "!followup-checksum-failed!", "followup-checksum");
  }

  method Execute(libs: Libs, child: Child, session: Session, tsk: Task, result: Result, fault: Fault)
    returns (error: Option<string>)
    modifies session`output, result
    ensures var o := Check(libs, child, session.source, old(session.OutputDir(tsk.id)), tsk,
                           old(result.outputs), old(result.followups), fault);
      && error == o.error
      && result.outputs == o.outputs
      && result.followups == o.followups
      && session.OutputDir(tsk.id) == o.dir
    ensures forall id | id != tsk.id :: session.OutputDir(id) == old(session.OutputDir(id))
  {
    var mismatches, saved := DetectStateMismatches(libs, session, tsk);
    if mismatches == [] {
      Replay(saved.value, result);
      return None;
    }

    error := RunAndSave(libs, child, session, tsk, result, fault);
  }

  /** Appends the decoded result to the caller's. */
  method Replay(saved: Saved, result: Result)
    modifies result
    ensures result.outputs == old(result.outputs) + saved.outputs
    ensures result.followups == old(result.followups) + saved.followups
  {
    var res := new Result();
    res.AddOutputs(saved.outputs);
    res.AddFollowupTasks(saved.followups);
    assert res.outputs == saved.outputs && res.followups == saved.followups;
    result.Append(res);
  }

  /** The rest of `Execute`, when the state does not match. */
  method RunAndSave(libs: Libs, child: Child, session: Session, tsk: Task, result: Result, fault: Fault)
    returns (error: Option<string>)
    modifies session`output, result
    ensures var o := Miss(libs, child, session.source, old(session.OutputDir(tsk.id)), tsk,
                          old(result.outputs), old(result.followups), fault);
      && error == o.error
      && result.outputs == o.outputs
      && result.followups == o.followups
      && session.OutputDir(tsk.id) == o.dir
    ensures forall id | id != tsk.id :: session.OutputDir(id) == old(session.OutputDir(id))
  {
    var o := child(tsk, session.source, session.OutputDir(tsk.id));
    result.AddOutputs(o.outputs);
    result.AddFollowupTasks(o.followups);
    session.SetOutputDir(tsk.id, o.dir);
    if o.error.Some? { return o.error; }

    var ok := SaveState(libs, session, tsk, result, fault);
    return if ok then None else Some(SAVE_FAILED);
  }
}
