/** Exactly when a task that has just been run and saved is skipped the next time. */
module StateCheckHits {
  import opened Options
  import opened Tasks
  import opened StateCheck
  import opened StateCheckContents
  import opened StateCheckHistories

  /** Hashing sees no difference in any followup's arguments after JSON. */
  predicate StableFollowups(followups: seq<Task>) {
    forall f | f in followups :: OnlyZeroInts(f.args)
  }

  lemma StableIffHashed(followups: seq<Task>)
    ensures StableFollowups(followups) <==> AsHashed(DecodedTasks(followups)) == AsHashed(followups)
  {
    var e, d := AsHashed(followups), AsHashed(DecodedTasks(followups));
    forall i | 0 <= i < |followups| ensures d[i] == e[i] <==> OnlyZeroInts(followups[i].args) {
      HashSurvivesIff(followups[i].args);
      assert OmitEmpty(OmitEmpty(followups[i].inputs)) == OmitEmpty(followups[i].inputs);
    }
    if StableFollowups(followups) {
      assert forall i | 0 <= i < |followups| :: followups[i] in followups;
    } else {
      var f :| f in followups && !OnlyZeroInts(f.args);
      var i :| 0 <= i < |followups| && followups[i] == f;
      assert d[i] != e[i];
    }
  }

  /** What must hold of a task and its result for the saved state to match again: its inputs are not an
      empty non-nil slice, its followups' arguments hold no integers but zero, and no output pattern matches the
      state file. */
  predicate Repeatable(libs: Libs, tsk: Task, outputs: seq<string>, followups: seq<Task>, names: set<string>) {
    && tsk.inputs != Some([])
    && StableFollowups(followups)
    && !MatchedBy(libs, names, outputs, STATE_FILE)
  }

  lemma EncodedNotEmpty(libs: Libs, s: Saved)
    requires Sound(libs)
    ensures libs.encode(s) != []
  {
    assert libs.decode(libs.encode(s)) == Some(DecodedSaved(s));
  }

  /** Right after a task has been saved, and with the workspace unchanged, it is skipped if and only if it
      is repeatable; what is replayed is what was saved, as JSON brings it back. */
  lemma SkippedIffRepeatable(libs: Libs, source: Dir, dir: Dir, tsk: Task, outputs: seq<string>, followups: seq<Task>)
    requires Sound(libs) && Save(libs, source, dir, tsk, outputs, followups, NoFault).1
    ensures var saved := Save(libs, source, dir, tsk, outputs, followups, NoFault).0;
      && (Hit(libs, source, saved, tsk) <==> Repeatable(libs, tsk, outputs, followups, saved.Keys))
      && ReadState(libs, saved).Some?
      && ReadState(libs, saved).value.outputs == outputs
      && ReadState(libs, saved).value.followups == DecodedTasks(followups)
  {
    var created := dir[STATE_FILE := []];
    var f := Fingerprint(libs, source, created, tsk, outputs, followups).value;
    var saved := created[STATE_FILE := libs.encode(f)];
    var s := DecodedSaved(f);
    assert libs.decode(libs.encode(f)) == Some(s);
    EncodedNotEmpty(libs, f);
    assert OnlyDiffers(created, saved, STATE_FILE);
    ContentsGrow(libs, created, saved, STATE_FILE, outputs);
    FilesSumSeparates(libs, created, outputs, saved, outputs);
    assert FilesSum(libs, saved, outputs) == Some(f.outputsSum) <==> !MatchedBy(libs, saved.Keys, outputs, STATE_FILE);
    StableIffHashed(followups);
    TasksSumSeparates(libs, followups, s.followups);
    assert TasksSum(libs, s.followups) == Some(f.followupsSum) <==> StableFollowups(followups);
    assert tsk.inputs == s.inputs <==> tsk.inputs != Some([]);
  }

  /** A call whose result already held something saves that too: if the next call, with a fresh result, is
      skipped, it gives what was left over followed by what the child gave; so it gives the child's outputs, and
      its followups as far as hashing sees, if and only if there was nothing left over of them. */
  lemma LeftoverIsReplayed(libs: Libs, child: Child, source: Dir, dir: Dir, tsk: Task, outputs: seq<string>,
                           followups: seq<Task>)
    requires Sound(libs) && !Hit(libs, source, dir, tsk)
    requires Check(libs, child, source, dir, tsk, outputs, followups, NoFault).error.None?
    requires Hit(libs, source, Check(libs, child, source, dir, tsk, outputs, followups, NoFault).dir, tsk)
    ensures var saved := Check(libs, child, source, dir, tsk, outputs, followups, NoFault).dir;
      var next, o := Check(libs, child, source, saved, tsk, [], [], NoFault), child(tsk, source, dir);
      && next.outputs == outputs + o.outputs
      && next.followups == DecodedTasks(followups + o.followups)
      && (next.outputs == o.outputs <==> outputs == [])
      && (AsHashed(next.followups) == AsHashed(o.followups) <==> followups == [])
  {
    var o := child(tsk, source, dir);
    var saved := Check(libs, child, source, dir, tsk, outputs, followups, NoFault).dir;
    var next := Check(libs, child, source, saved, tsk, [], [], NoFault);
    SkippedIffRepeatable(libs, source, o.dir, tsk, outputs + o.outputs, followups + o.followups);
    assert next.outputs == [] + (outputs + o.outputs) == outputs + o.outputs;
    assert next.followups == [] + DecodedTasks(followups + o.followups) == DecodedTasks(followups + o.followups);
    LeftoverShows(outputs, o.outputs);
    StableIffHashed(followups + o.followups);
    if followups == [] {
      assert followups + o.followups == o.followups;
    } else {
      assert |AsHashed(next.followups)| > |AsHashed(o.followups)|;
    }
  }

  lemma LeftoverShows(left: seq<string>, own: seq<string>)
    ensures left + own == own <==> left == []
  {
    assert left == [] || |left + own| > |own|;
  }
}
