/** The state checker over the router, as the driver stacks them: what is saved names the executor in full,
    because the router restores the task's `Executor` field before the state is saved. */
module RoutedCheck {
  import opened Options
  import opened Tasks
  import opened Trie
  import opened TrieRouting
  import opened Routers
  import opened StateCheck

  type Executors = (Exec, Task, Dir, Dir) -> Outcome

  /** A router as the state checker's child. */
  function RoutedChild(t: Tree, executors: Executors): StateCheck.Child {
    (tsk: Task, source: Dir, dir: Dir) =>
      var hit := Route(t, tsk.executor);
      if hit.None? then Outcome(Some(NOT_FOUND + LastField(t, tsk.executor)), [], [], dir)
      else executors(hit.value.exec, tsk.(executor := hit.value.rest), source, dir)
  }

  /** The task as it is while its `Executor` field holds this. */
  function Named(tsk: Task, executor: string): Task {
    tsk.(executor := executor)
  }

  lemma ChildCalls(t: Tree, executors: Executors, tsk: Task, name: string, source: Dir, dir: Dir)
    ensures RoutedChild(t, executors)(Named(tsk, name), source, dir) ==
      var hit := Route(t, name);
      if hit.None? then Outcome(Some(NOT_FOUND + LastField(t, name)), [], [], dir)
      else executors(hit.value.exec, Named(tsk, hit.value.rest), source, dir)
  {
    var hit := Route(t, name);
    if hit.Some? { assert Named(tsk, name).(executor := hit.value.rest) == Named(tsk, hit.value.rest); }
  }

  /** The router's `Execute` on a task whose executors leave its field alone. */
  method CallRouter(router: Router, executors: Executors, cell: TaskCell, tsk: Task, source: Dir, dir: Dir)
    returns (o: Outcome)
    requires router.Valid()
    modifies cell
    ensures var t, name := old(router.Model()), old(cell.executor);
      var hit := Route(t, name);
      && (hit.None? ==> o == Outcome(Some("no executor found: " + LastField(t, name)), [], [], dir))
      && (hit.Some? ==> o == executors(hit.value.exec, Named(tsk, hit.value.rest), source, dir))
      && o == RoutedChild(t, executors)(Named(tsk, name), source, dir)
    ensures cell.executor == old(cell.executor)
  {
    ghost var t := router.Model();
    var name := cell.executor;
    var fails := (e: Exec, left: string) => executors(e, Named(tsk, left), source, dir).error.Some?;
    var hit, failed, path := router.Execute(cell, (e: Exec, left: string) => left, fails);
    ChildCalls(t, executors, tsk, name, source, dir);
    assert hit == Route(t, name) && path == Stations(t, name);
    if hit.None? {
      o := Outcome(Some(NOT_FOUND + path[|path| - 1].field), [], [], dir);
    } else {
      o := executors(hit.value.exec, Named(tsk, hit.value.rest), source, dir);
    }
  }

  /** `Execute` of a state checker over a router. The task's field is read again after the router has returned,
      when the state is saved; the outcome is that of a child that is given the task by value. */
  method Execute(libs: Libs, router: Router, executors: Executors, session: Session, cell: TaskCell, tsk: Task,
                 result: Result, fault: Fault) returns (error: Option<string>)
    requires router.Valid()
    modifies session`output, cell, result
    ensures var o := Check(libs, RoutedChild(old(router.Model()), executors), session.source,
                           old(session.OutputDir(tsk.id)), Named(tsk, old(cell.executor)),
                           old(result.outputs), old(result.followups), fault);
      && error == o.error
      && result.outputs == o.outputs
      && result.followups == o.followups
      && session.OutputDir(tsk.id) == o.dir
    ensures cell.executor == old(cell.executor)
  {
    var mismatches, saved := DetectStateMismatches(libs, session, Named(tsk, cell.executor));
    if mismatches == [] {
      Replay(saved.value, result);
      return None;
    }

    var o := CallRouter(router, executors, cell, tsk, session.source, session.OutputDir(tsk.id));
    result.AddOutputs(o.outputs);
    result.AddFollowupTasks(o.followups);
    session.SetOutputDir(tsk.id, o.dir);
    if o.error.Some? { return o.error; }

    var ok := SaveState(libs, session, Named(tsk, cell.executor), result, fault);
    return if ok then None else Some(SAVE_FAILED);
  }
}
