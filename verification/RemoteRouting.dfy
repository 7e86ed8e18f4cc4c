/** A plugin's router behind the host's remote executor: routing, the call across gRPC, and routing again. */
module RemoteRouting {
  import opened Options
  import opened Tasks
  import opened Trie
  import opened TrieRefinement
  import opened TrieRouting
  import opened TrieTables
  import opened TrieMount
  import opened Rpc
  import opened Routers

  /** A router as an executor: the task reaches an executor with what is left of the name in its field, or the
      error names what is left where the search ends. */
  function Behind(t: Tree, behave: (Exec, Task) -> Executed): Task -> Executed {
    (tsk: Task) =>
      var hit := Route(t, tsk.executor);
      if hit.None? then Executed(Some(NOT_FOUND + LastField(t, tsk.executor)), [], [])
      else behave(hit.value.exec, tsk.(executor := hit.value.rest))
  }

  /** The two routers give up at the same place. */
  lemma SameLastField(host: seq<Op>, mounted: seq<Op>, merged: seq<Op>, mount: string, request: string)
    requires Mountable(host, mounted, merged, mount) && Proper(request) && Route(Run(mounted), request).None?
    ensures LastField(Run(merged), Requested(mount, request)) == LastField(Run(mounted), request)
  {
    if forall k | k in Table(mounted) :: k == [] { NamelessTakesAll(mounted, request); }
    MountedTree(host, mounted, merged, mount);
    RequestedParts(mount, request);
    LastFieldBelow(Run(merged), Requested(mount, request), Choice(mount, [mount], request));
  }

  /** The host leaves the plugin's router what one router holding both tables would be asked, and across the
      wire it does the same with it, errors included. */
  lemma {:induction false} MountBehavesAsMerged(host: seq<Op>, mounted: seq<Op>, merged: seq<Op>, mount: string,
                                                request: string, behave: (Exec, Task) -> Executed, tsk: Task)
    requires Mountable(host, mounted, merged, mount) && Proper(request) && tsk.executor == Requested(mount, request)
    ensures var hit := Route(Run(host), tsk.executor);
      && hit.Some? && hit.value.key == [mount]
      && Behind(Run(mounted), behave)(Arrived(tsk.(executor := hit.value.rest)))
        == Behind(Run(merged), behave)(Arrived(tsk))
  {
    MountComposes(host, mounted, merged, mount, request);
    var hit := Route(Run(host), tsk.executor);
    assert [] + hit.value.key == hit.value.key;
    assert Arrived(tsk).(executor := request) == Arrived(tsk.(executor := request));
    if Route(Run(mounted), request).None? { SameLastField(host, mounted, merged, mount, request); }
  }

  /** What the plugin's router does with a task, in place: it looks for the executor with the task's field, which
      the executor finds cut to what is left of the name, fails if there is none, and restores the field. */
  method RunBehind(router: Router, behave: (Exec, Task) -> Executed, cell: TaskCell, tsk: Task)
    returns (done: Executed)
    requires router.Valid()
    modifies cell
    ensures var t, name := old(router.Model()), old(cell.executor);
      var hit := Route(t, name);
      && (hit.None? ==> done == Executed(Some("no executor found: " + LastField(t, name)), [], []))
      && (hit.Some? ==> done == behave(hit.value.exec, tsk.(executor := hit.value.rest)))
      && done == Behind(t, behave)(tsk.(executor := name))
    ensures cell.executor == old(cell.executor)
  {
    ghost var t := router.Model();
    var name := cell.executor;
    var fails := (e: Exec, left: string) => behave(e, tsk.(executor := left)).error.Some?;
    var hit, failed, path := router.Execute(cell, (e: Exec, left: string) => left, fails);
    assert hit == Route(t, name) && path == Stations(t, name);
    BehindCalls(t, behave, tsk, name);
    if hit.None? {
      done := Executed(Some(NOT_FOUND + path[|path| - 1].field), [], []);
    } else {
      done := behave(hit.value.exec, tsk.(executor := hit.value.rest));
    }
  }

  lemma BehindCalls(t: Tree, behave: (Exec, Task) -> Executed, tsk: Task, name: string)
    ensures Behind(t, behave)(tsk.(executor := name)) ==
      var hit := Route(t, name);
      if hit.None? then Executed(Some(NOT_FOUND + LastField(t, name)), [], [])
      else behave(hit.value.exec, tsk.(executor := hit.value.rest))
  {
    var hit := Route(t, name);
    if hit.Some? {
      assert tsk.(executor := name).(executor := hit.value.rest) == tsk.(executor := hit.value.rest);
    }
  }

  /** A task for a mounted name, executed by the host: its router leaves the remote executor the rest of the
      name, and the caller's result and error are those of a remote call to the executor that one router holding
      both tables has for the name, or the error that it has none. */
  method ExecuteThroughHost(server: Server, session: string, mkdirFails: bool,
                            host: seq<Op>, mounted: seq<Op>, ghost merged: seq<Op>, mount: string, request: string,
                            behave: (Exec, Task) -> Executed, tsk: Task, result: Result)
    returns (ending: Ending)
    requires Mountable(host, mounted, merged, mount) && Proper(request) && tsk.executor == Requested(mount, request)
    modifies result
    ensures ending.Panicked? <==> !NoInnerNull(tsk.args)
    ensures var hit, before := Route(Run(merged), tsk.executor), old((result.outputs, result.followups));
      var served, after := session in server.sessions && !mkdirFails, (result.outputs, result.followups);
      && (hit.Some? ==>
            Delivers(ending, served, behave(hit.value.exec, Arrived(tsk).(executor := hit.value.rest)), before, after))
      && (hit.None? ==> after == before)
      && (hit.None? && served && ending.Returned? ==>
            ending.error == Some("no executor found: " + LastField(Run(merged), tsk.executor)))
      && (hit.None? && !served && ending.Returned? ==> ending.error.Some?)
  {
    MountBehavesAsMerged(host, mounted, merged, mount, request, behave, tsk);
    var hit := Route(Run(host), tsk.executor);
    ending := Rpc.Execute(server, session, mkdirFails, Behind(Run(mounted), behave),
                          tsk.(executor := hit.value.rest), result);
  }
}
