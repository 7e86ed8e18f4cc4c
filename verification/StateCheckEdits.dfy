/** What makes a saved task run again, what saving leaves behind, and what is reported. */
module StateCheckEdits {
  import opened Options
  import opened Tasks
  import opened StateCheck
  import opened StateCheckContents
  import opened StateCheckHistories

  /* Edits */

  /** A task that is skipped is skipped again after a change to one file of the source tree if and only if none
      of its input patterns matches the file. */
  lemma EditedInputRuns(libs: Libs, source: Dir, source': Dir, name: string, dir: Dir, tsk: Task)
    requires Sound(libs) && Hit(libs, source, dir, tsk) && OnlyDiffers(source, source', name)
    ensures Hit(libs, source', dir, tsk) <==> !MatchedBy(libs, source.Keys, Elems(tsk.inputs), name)
  {
    ContentsChange(libs, source, source', name, Elems(tsk.inputs));
    FilesSumSeparates(libs, source, Elems(tsk.inputs), source', Elems(tsk.inputs));
  }

  /** Likewise for a change to one file that it has put out, and its saved output patterns. */
  lemma EditedOutputRuns(libs: Libs, source: Dir, dir: Dir, dir': Dir, name: string, tsk: Task)
    requires Sound(libs) && Hit(libs, source, dir, tsk) && OnlyDiffers(dir, dir', name) && name != STATE_FILE
    ensures Hit(libs, source, dir', tsk) <==>
      !MatchedBy(libs, dir.Keys, ReadState(libs, dir).value.outputs, name)
  {
    var outputs := ReadState(libs, dir).value.outputs;
    ContentsChange(libs, dir, dir', name, outputs);
    FilesSumSeparates(libs, dir, outputs, dir', outputs);
  }

  /** A file that cannot be read any more makes it run too. */
  lemma MissingInputRuns(libs: Libs, source: Dir, dir: Dir, tsk: Task, pattern: string)
    requires pattern in Elems(tsk.inputs)
    requires var names := libs.glob(pattern, source.Keys); names.None? || exists n :: n in names.value && n !in source
    ensures !Hit(libs, source, dir, tsk)
  {
    var i :| 0 <= i < |Elems(tsk.inputs)| && Elems(tsk.inputs)[i] == pattern;
    var names := libs.glob(pattern, source.Keys);
    if names.Some? { FilesLaidOut(source, names.value); }
    ContentsFails(libs, source, Elems(tsk.inputs), i);
  }

  /** Two tasks that the same saved state matches agree in executor and input patterns, in arguments as far as
      hashing sees, and in the bytes that the patterns match. */
  lemma HitsAgree(libs: Libs, source: Dir, source': Dir, dir: Dir, t: Task, u: Task)
    requires Sound(libs) && Hit(libs, source, dir, t) && Hit(libs, source', dir, u)
    ensures t.executor == u.executor && t.inputs == u.inputs && Hashed(t.args) == Hashed(u.args)
    ensures Contents(libs, source, Elems(t.inputs)) == Contents(libs, source', Elems(u.inputs))
  {
    ArgsSumSeparates(libs, t.args, u.args);
    FilesSumSeparates(libs, source, Elems(t.inputs), source', Elems(u.inputs));
  }

  /* Saving */

  /** What JSON makes of a state: the same but for empty inputs, which are nil, and the followups' own changes. */
  lemma DecodedSavedKeeps(s: Saved)
    ensures var d := DecodedSaved(s);
      && d.executor == s.executor && Elems(d.inputs) == Elems(s.inputs) && d.inputs != Some([])
      && d.outputs == s.outputs && |d.followups| == |s.followups|
      && (forall i | 0 <= i < |s.followups| :: d.followups[i] == DecodedTask(s.followups[i]))
      && d.argsSum == s.argsSum && d.inputsSum == s.inputsSum
      && d.outputsSum == s.outputsSum && d.followupsSum == s.followupsSum
  {}

  /** Something that saving needs cannot be had. */
  predicate Unhashable(libs: Libs, source: Dir, created: Dir, tsk: Task, outputs: seq<string>, followups: seq<Task>) {
    || (tsk.args != Null && libs.argsCode(tsk.args).None?)
    || Contents(libs, source, Elems(tsk.inputs)).None?
    || Contents(libs, created, outputs).None?
    || libs.tasksCode(followups).None?
  }

  /** What saving leaves: nothing but the state file is touched; it is as it was if it could not be created, empty
      if something could not be hashed, the start of the encoded state if the write failed, and otherwise all of
      it, and only then saving succeeds. */
  lemma SaveLeaves(libs: Libs, source: Dir, dir: Dir, tsk: Task, outputs: seq<string>, followups: seq<Task>,
                   fault: Fault)
    ensures var (after, ok) := Save(libs, source, dir, tsk, outputs, followups, fault);
      && after - {STATE_FILE} == dir - {STATE_FILE}
      && var unhashable := Unhashable(libs, source, dir[STATE_FILE := []], tsk, outputs, followups);
      && (ok <==> fault == NoFault && !unhashable)
      && if fault == MkdirFails || fault == CreateFails then after == dir
         else
           && STATE_FILE in after
           && (unhashable ==> after[STATE_FILE] == [])
           && (!unhashable ==> exists s: Saved ::
                 && s.executor == tsk.executor && s.inputs == tsk.inputs
                 && s.outputs == outputs && s.followups == followups
                 && after[STATE_FILE] <= libs.encode(s)
                 && (fault == NoFault ==> after[STATE_FILE] == libs.encode(s)))
  {
    var (after, ok) := Save(libs, source, dir, tsk, outputs, followups, fault);
    assert after - {STATE_FILE} == dir - {STATE_FILE};
    if fault != MkdirFails && fault != CreateFails {
      var created := dir[STATE_FILE := []];
      var f := Fingerprint(libs, source, created, tsk, outputs, followups);
      if f.Some? { assert after[STATE_FILE] <= libs.encode(f.value); }
    }
  }

  /** When the state does not match: the child's error is returned and nothing is saved; without one, an error is
      returned exactly when saving fails. The child's outputs and followups are added in every case. */
  lemma RunReports(libs: Libs, child: Child, source: Dir, dir: Dir, tsk: Task, outputs: seq<string>,
                   followups: seq<Task>, fault: Fault)
    requires !Hit(libs, source, dir, tsk)
    ensures var c := Check(libs, child, source, dir, tsk, outputs, followups, fault);
      var o := child(tsk, source, dir);
      var outs, fups := outputs + o.outputs, followups + o.followups;
      && c.outputs == outs && c.followups == fups
      && (o.error.Some? ==> c.error == o.error && c.dir == o.dir)
      && (o.error.None? ==>
            (c.error == None <==>
             fault == NoFault && !Unhashable(libs, source, o.dir[STATE_FILE := []], tsk, outs, fups)))
  {
    var o := child(tsk, source, dir);
    SaveLeaves(libs, source, o.dir, tsk, outputs + o.outputs, followups + o.followups, fault);
  }

  /** When it matches: no error, the saved outputs and followups are added, and nothing changes. */
  lemma SkipReports(libs: Libs, child: Child, source: Dir, dir: Dir, tsk: Task, outputs: seq<string>,
                    followups: seq<Task>, fault: Fault)
    requires Hit(libs, source, dir, tsk)
    ensures var s := libs.decode(dir[STATE_FILE]).value;
      Check(libs, child, source, dir, tsk, outputs, followups, fault)
        == Outcome(None, outputs + s.outputs, followups + s.followups, dir)
  {}

  /* Mismatches */

  lemma FlagMeans(raised: bool, name: string, l: string)
    ensures l in Flag(raised, name) <==> raised && l == name
  {}

  lemma InEither(a: seq<string>, b: seq<string>, l: string)
    ensures l in a + b <==> l in a || l in b
  {}

  lemma TaskLabel(libs: Libs, source: Dir, tsk: Task, s: Saved, l: string)
    ensures l in TaskReported(libs, source, tsk, s) <==>
      || (l == "executor" && tsk.executor != s.executor)
      || (l == "arguments-checksum" && ArgsSum(libs, tsk.args) != Some(s.argsSum))
      || (l == "inputs" && tsk.inputs != s.inputs)
      || (l == "inputs-checksum" && FilesSum(libs, source, Elems(tsk.inputs)) != Some(s.inputsSum))
  {
    var a := Flag(tsk.executor != s.executor, "executor");
    var b := Flag(ArgsSum(libs, tsk.args) != Some(s.argsSum), "arguments-checksum");
    var c := Flag(tsk.inputs != s.inputs, "inputs");
    var d := Flag(FilesSum(libs, source, Elems(tsk.inputs)) != Some(s.inputsSum), "inputs-checksum");
    FlagMeans(tsk.executor != s.executor, "executor", l);
    FlagMeans(ArgsSum(libs, tsk.args) != Some(s.argsSum), "arguments-checksum", l);
    FlagMeans(tsk.inputs != s.inputs, "inputs", l);
    FlagMeans(FilesSum(libs, source, Elems(tsk.inputs)) != Some(s.inputsSum), "inputs-checksum", l);
    InEither(a, b, l);
    InEither(a + b, c, l);
    InEither(a + b + c, d, l);
  }

  lemma SumLabel(sum: Option<nat>, expected: nat, failed: string, differs: string, l: string)
    ensures l in SumFlags(sum, expected, failed, differs) <==>
      || (l == failed && sum == None)
      || (l == differs && sum.Some? && sum.value != expected)
  {}

  /** Each label is reported exactly when its part differs, or cannot be had, and nothing else is. */
  lemma LabelMeans(libs: Libs, source: Dir, dir: Dir, tsk: Task, s: Saved, l: string)
    ensures var outs, fups := FilesSum(libs, dir, s.outputs), TasksSum(libs, s.followups);
      l in Reported(libs, source, dir, tsk, s) <==>
        || (l == "executor" && tsk.executor != s.executor)
        || (l == "arguments-checksum" && ArgsSum(libs, tsk.args) != Some(s.argsSum))
        || (l == "inputs" && tsk.inputs != s.inputs)
        || (l == "inputs-checksum" && FilesSum(libs, source, Elems(tsk.inputs)) != Some(s.inputsSum))
        || (l == "!output-checksum-failed!" && outs.None?)
        || (l == "output-checksum" && outs.Some? && outs.value != s.outputsSum)
        || (l == "!followup-checksum-failed!" && fups.None?)
        || (l == "followup-checksum" && fups.Some? && fups.value != s.followupsSum)
  {
    var outs, fups := FilesSum(libs, dir, s.outputs), TasksSum(libs, s.followups);
    var a := TaskReported(libs, source, tsk, s);
    var b := SumFlags(outs, s.outputsSum, "!output-checksum-failed!", "output-checksum");
    var c := SumFlags(fups, s.followupsSum, "!followup-checksum-failed!", "followup-checksum");
    TaskLabel(libs, source, tsk, s, l);
    SumLabel(outs, s.outputsSum, "!output-checksum-failed!", "output-checksum", l);
    SumLabel(fups, s.followupsSum, "!followup-checksum-failed!", "followup-checksum", l);
    InEither(a, b, l);
    InEither(a + b, c, l);
  }
}
