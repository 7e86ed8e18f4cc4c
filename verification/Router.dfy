/** The router of pkg/executor/router/router.go: a map of children updated in place, each an executor or a
    router of its own. Every method is proved against the functions of module Trie on the router's tree. */
module Routers {
  import opened Names
  import opened Options
  import opened Trie
  import opened TrieRouting
  import opened TrieVisits

  datatype Child = Direct(exec: Exec) | Sub(router: Router)

  /** The task's `Executor` field, which routing rewrites and restores. */
  class TaskCell {
    var executor: string

    constructor (executor: string) {
      this.executor := executor;
    }
  }

  class Router {
    var children: map<string, Child>
    ghost var Repr: set<Router>

    ghost predicate Valid()
      reads this, Repr
      ensures Valid() ==> this in Repr
      decreases Repr
    {
      && this in Repr
      && (forall s | s in children :: SEP !in s)
      && (forall s | s in children && children[s].Sub? ::
            var r := children[s].router;
            r in Repr && r.Repr <= Repr && this !in r.Repr && r.Valid())
      && (forall s, u | s in children && u in children && s != u && children[s].Sub? && children[u].Sub? ::
            children[s].router.Repr !! children[u].router.Repr)
    }

    /** The tree that the router and its sub-routers form. */
    ghost function Model(): (t: Tree)
      requires Valid()
      reads this, Repr
      ensures t.Node? && t.kids.Keys == children.Keys
      decreases Repr
    {
      Node(map s | s in children ::
        if children[s].Direct? then Leaf(children[s].exec) else children[s].router.Model())
    }

    constructor ()
      ensures Valid() && fresh(Repr) && Model() == EMPTY
    {
      children := map[];
      Repr := {this};
    }

    /** Putting a router under one segment, and leaving the sub-routers under the others alone, puts its
        tree there and leaves the rest of the tree alone. */
    twostate lemma Grafted(s: string, new sub: Router)
      requires old(Valid()) && SEP !in s && children == old(children)[s := Sub(sub)]
      requires old(Repr) <= Repr && sub.Valid() && sub.Repr <= Repr && this !in sub.Repr
      requires forall u | u in old(children) && u != s && old(children)[u].Sub? ::
        unchanged(old(children[u].router.Repr)) && sub.Repr !! old(children[u].router.Repr)
      ensures Valid() && Model() == Node(old(Model()).kids[s := sub.Model()])
    {
      forall u | u in old(children) && u != s && old(children)[u].Sub?
        ensures var r := old(children)[u].router;
          r.Repr == old(r.Repr) && r.Valid() && r.Model() == old(r.Model())
      {
        assert old(children[u].router.Valid());
      }
      assert Valid();
      assert Model().kids == old(Model()).kids[s := sub.Model()];
    }

    method RegisterExecutor(name: string, exec: Exec) returns (ok: bool)
      requires Valid()
      modifies Repr
      ensures Valid() && fresh(Repr - old(Repr))
      ensures Model() == Register(old(Model()), name, exec).tree
      ensures ok == Register(old(Model()), name, exec).ok
      decreases |name|, Repr, 1
    {
      var p := Cut(name);
      if p.found {
        RegisterThroughSub(Model(), name, exec);
        Descend(name);
        ok := RegisterIn(p.before, p.after, exec);
      } else if p.before in children {
        if children[p.before].Sub? {
          ok := RegisterIn(p.before, p.after, exec);
        } else {
          ok := false;
        }
      } else {
        children := children[p.before := Direct(exec)];
        ok := true;
        PlacedDirect(p.before, exec);
      }
    }

    /** The recursion of `RegisterExecutor` into the sub-router under a segment. */
    method RegisterIn(s: string, name: string, exec: Exec) returns (ok: bool)
      requires Valid() && s in children && children[s].Sub?
      modifies Repr
      ensures Valid() && fresh(Repr - old(Repr))
      ensures Model() == Node(old(Model()).kids[s := Register(old(Model()).kids[s], name, exec).tree])
      ensures ok == Register(old(Model()).kids[s], name, exec).ok
      decreases |name|, Repr, 0
    {
      var sub := children[s].router;
      assert sub.Model() == Model().kids[s];
      ok := sub.RegisterExecutor(name, exec);
      ghost var u := sub.Model();
      Repr := Repr + sub.Repr;
      assert sub.Model() == u;
      Regrafted(s, sub);
    }

    /** The same for a sub-router that was already there and has changed in place. */
    twostate lemma Regrafted(s: string, new sub: Router)
      requires old(Valid()) && children == old(children) && s in children && children[s] == Sub(sub)
      requires sub.Valid() && this !in sub.Repr && fresh(sub.Repr - old(sub.Repr)) && Repr == old(Repr) + sub.Repr
      requires forall r | r in old(Repr) && r != this && r !in old(sub.Repr) :: unchanged(r)
      ensures Valid() && Model() == Node(old(Model()).kids[s := sub.Model()])
    {
      assert children == old(children)[s := Sub(sub)];
      forall u | u in old(children) && u != s && old(children)[u].Sub?
        ensures unchanged(old(children[u].router.Repr)) && sub.Repr !! old(children[u].router.Repr)
      {
        assert old(children[u].router.Repr) !! old(sub.Repr);
      }
      Grafted(s, sub);
    }

    twostate lemma PlacedDirect(s: string, new exec: Exec)
      requires old(Valid()) && SEP !in s && s !in old(children) && children == old(children)[s := Direct(exec)]
      requires Repr == old(Repr) && forall o | o in old(Repr) && o != this :: unchanged(o)
      ensures Valid() && Model() == Node(old(Model()).kids[s := Leaf(exec)])
    {
      forall u | u in old(children) && old(children)[u].Sub?
        ensures var r := old(children)[u].router;
          r.Repr == old(r.Repr) && r.Valid() && r.Model() == old(r.Model())
      {
        assert old(children[u].router.Valid());
      }
      assert Valid();
      assert Model().kids == old(Model()).kids[s := Leaf(exec)];
    }

    /** The sub-router for a longer name's first segment, made if need be. */
    method Descend(name: string)
      requires Valid() && Cut(name).found
      modifies Repr
      ensures Valid() && fresh(Repr - old(Repr))
      ensures Cut(name).before in children && children[Cut(name).before].Sub?
      ensures var s := Cut(name).before;
        Model() == Node(old(Model()).kids[s := SubRouter(old(Model()), s)])
      decreases |name|, Repr, 0
    {
      var s := Cut(name).before;
      if s in children && children[s].Sub? {
        assert Model().kids[s := Model().kids[s]] == Model().kids;
      } else {
        var sub := MakeSub(s);
        Attach(s, sub);
      }
    }

    method Attach(s: string, sub: Router)
      requires Valid() && SEP !in s && (s in children ==> children[s].Direct?)
      requires sub.Valid() && sub.Repr !! Repr
      modifies this
      ensures Valid() && Repr == old(Repr) + sub.Repr && children == old(children)[s := Sub(sub)]
      ensures Model() == Node(old(Model()).kids[s := old(sub.Model())])
    {
      ghost var u := sub.Model();
      children := children[s := Sub(sub)];
      Repr := Repr + sub.Repr;
      assert sub.Model() == u;
      Grafted(s, sub);
    }

    /** The router to put in a child's place: a child that is an executor is registered in it again,
        without a name. */
    method MakeSub(s: string) returns (sub: Router)
      requires Valid() && (s in children ==> children[s].Direct?)
      ensures sub.Valid() && fresh(sub.Repr)
      ensures sub.Model() == SubRouter(Model(), s)
      decreases 1, Repr - {this}
    {
      ghost var t := Model();
      sub := new Router();
      if s in children {
        var ok := sub.RegisterExecutor("", children[s].exec);
        assert ok;
        assert EMPTY.kids["" := t.kids[s]] == map["" := t.kids[s]];
      }
    }

    method UnregisterExecutors(names: seq<string>)
      requires Valid()
      modifies Repr
      ensures Valid() && Repr == old(Repr)
      ensures Model() == UnregisterAll(old(Model()), names)
      decreases Repr, 1
    {
      for i := 0 to |names|
        invariant Valid() && Repr == old(Repr)
        invariant UnregisterAll(Model(), names[i..]) == UnregisterAll(old(Model()), names)
      {
        assert names[i..][1..] == names[i + 1..];
        var stop := UnregisterOne(names[i]);
        if stop { return; }
      }
    }

    /** The body of the loop of `UnregisterExecutors`: whether it returns, and what it did. */
    method UnregisterOne(name: string) returns (stop: bool)
      requires Valid()
      modifies Repr
      ensures Valid() && Repr == old(Repr)
      ensures Model() == Unregister(old(Model()), name)
      ensures stop == Stops(old(Model()), name)
      decreases Repr, 0
    {
      var p := Cut(name);
      if p.before !in children { return true; }
      if children[p.before].Sub? {
        stop := UnregisterIn(p.before, p.after);
        if stop { return; }
      }
      Delete(name);
      stop := false;
    }

    method UnregisterIn(s: string, name: string) returns (remain: bool)
      requires Valid() && s in children && children[s].Sub?
      modifies Repr
      ensures Valid() && Repr == old(Repr)
      ensures Model() == Node(old(Model()).kids[s := Unregister(old(Model()).kids[s], name)])
      ensures remain == (Unregister(old(Model()).kids[s], name) != EMPTY)
      decreases Repr, -1
    {
      var sub := children[s].router;
      assert sub.Model() == Model().kids[s];
      assert UnregisterAll(sub.Model(), [name]) == Unregister(sub.Model(), name);
      sub.UnregisterExecutors([name]);
      remain := sub.children != map[];
      Regrafted(s, sub);
    }

    method Delete(name: string)
      requires Valid()
      modifies this
      ensures Valid() && Repr == old(Repr)
      ensures Model() == Node(old(Model()).kids - {name})
    {
      children := children - {name};
      forall u | u in children && children[u].Sub?
        ensures var r := children[u].router;
          r.Repr == old(r.Repr) && r.Valid() && r.Model() == old(r.Model())
      {
        assert old(children[u].router.Valid());
      }
      assert Valid();
      assert Model().kids == old(Model()).kids - {name};
    }

    /** Finds the executor for the task and calls it. `leave` is what an executor leaves in the task's
        `Executor` field, and `fails` whether it returns an error; the router rewrites the field on the
        way down and restores it on the way back. `path` is what the field holds at each depth. */
    method Execute(tsk: TaskCell, leave: (Exec, string) -> string, fails: (Exec, string) -> bool)
      returns (hit: Option<Hit>, failed: bool, path: seq<Station>)
      requires Valid()
      modifies tsk
      ensures hit == Route(old(Model()), old(tsk.executor)) && path == Stations(old(Model()), old(tsk.executor))
      ensures failed == (hit.None? || fails(hit.value.exec, hit.value.rest))
      ensures tsk.executor ==
        if hit.Some? && hit.value.taken == [] then leave(hit.value.exec, old(tsk.executor))
        else old(tsk.executor)
      decreases Repr, 2
    {
      var exec := tsk.executor;
      ghost var t := Model();
      path := [Station([], tsk.executor)];
      var below;
      var p := Cut(exec);
      var keys := [p.before, WILDCARD];
      for i := 0 to |keys|
        invariant tsk.executor == exec
        invariant forall j | 0 <= j < i :: keys[j] !in children
      {
        if keys[i] in children {
          assert i == 0 || keys[0] !in children;
          RouteByChoice(t, exec, Choice(keys[i], [p.before], p.after));
          hit, failed, below := Forward(keys[i], t, tsk, leave, fails);
          path := path + below;
          return;
        }
      }
      assert keys[0] !in children && keys[1] !in children;
      if "" in children {
        RouteByChoice(t, exec, Choice("", [], exec));
        hit, failed, below := Call("", t, tsk, leave, fails);
        assert hit.Some? ==> [] + hit.value.taken == hit.value.taken;
        hit, path := Under("", [], hit), path + After([], below);
        return;
      }
      return None, true, path;
    }

    /** Rewrites the task's executor to what follows its first segment, executes the child found for that
        segment, and restores it. */
    method Forward(key: string, ghost t: Tree, tsk: TaskCell, leave: (Exec, string) -> string,
                   fails: (Exec, string) -> bool)
      returns (hit: Option<Hit>, failed: bool, path: seq<Station>)
      requires Valid() && t == Model() && key in children
      modifies tsk
      ensures var p := Cut(old(tsk.executor));
        && hit == Under(key, [p.before], Route(t.kids[key], p.after))
        && path == After([p.before], Stations(t.kids[key], p.after))
      ensures failed == (hit.None? || fails(hit.value.exec, hit.value.rest))
      ensures tsk.executor == old(tsk.executor)
      decreases Repr, 1
    {
      var exec := tsk.executor;
      var p := Cut(exec);
      tsk.executor := p.after;
      hit, failed, path := Call(key, t, tsk, leave, fails);
      tsk.executor := exec;
      hit, path := Under(key, [p.before], hit), After([p.before], path);
    }

    /** Executes one child, an executor or a router. */
    method Call(key: string, ghost t: Tree, tsk: TaskCell, leave: (Exec, string) -> string,
                fails: (Exec, string) -> bool)
      returns (hit: Option<Hit>, failed: bool, path: seq<Station>)
      requires Valid() && t == Model() && key in children
      modifies tsk
      ensures hit == Route(t.kids[key], old(tsk.executor)) && path == Stations(t.kids[key], old(tsk.executor))
      ensures failed == (hit.None? || fails(hit.value.exec, hit.value.rest))
      ensures tsk.executor ==
        if hit.Some? && hit.value.taken == [] then leave(hit.value.exec, old(tsk.executor))
        else old(tsk.executor)
      decreases Repr, 0
    {
      match children[key]
      case Direct(exec) =>
        failed := fails(exec, tsk.executor);
        hit, path := Some(Hit([], exec, [], tsk.executor)), [Station([], tsk.executor)];
        tsk.executor := leave(exec, tsk.executor);
      case Sub(router) =>
        hit, failed, path := router.Execute(tsk, leave, fails);
    }

    /** `ForEachExecutor`, with no name yet, and `forEachExecutorImpl` below it: the calls made to the
        callback. Map iteration is in no particular order. */
    method ForEachExecutor(working: Option<string>) returns (calls: seq<(string, Exec)>)
      requires Valid()
      ensures VisitsAll(Model(), working, calls)
      decreases Repr
    {
      calls := [];
      ghost var t, keys := Model(), [];
      var todo := children.Keys;
      ghost var done: set<string> := {};
      while todo != {}
        invariant done !! todo && done + todo == t.kids.Keys
        invariant Visited(t, done, working, calls, keys)
        decreases todo
      {
        var s :| s in todo;
        var more := ForChild(s, ChildName(working, s), t);
        ghost var theirs :| VisitedAll(t.kids[s], Some(ChildName(working, s)), more, theirs);
        VisitOneMore(t, done, working, calls, keys, s, more, theirs);
        calls, keys := calls + more, keys + Prefix(s, theirs);
        todo, done := todo - {s}, done + {s};
      }
      assert done == t.kids.Keys;
      assert VisitedAll(t, working, calls, keys);
    }

    method ForChild(s: string, name: string, ghost t: Tree) returns (calls: seq<(string, Exec)>)
      requires Valid() && s in children && t == Model()
      ensures VisitsAll(t.kids[s], Some(name), calls)
      decreases Repr, 0
    {
      match children[s]
      case Direct(exec) =>
        calls := [(name, exec)];
        assert VisitedAll(t.kids[s], Some(name), calls, [[]]);
      case Sub(router) => calls := router.ForEachExecutor(Some(name));
    }

    method GetNumExecutors() returns (n: nat)
      requires Valid()
      ensures exists calls :: VisitsAll(Model(), None, calls) && n == |calls|
    {
      var calls := ForEachExecutor(None);
      n := |calls|;
    }

    /** Opens a session on every executor, going on when one fails; the failures, in order, are what the
        error that is returned combines. */
    method OpenSession(fails: Exec -> bool) returns (reached: seq<Exec>, failures: seq<Exec>)
      requires Valid()
      ensures ReachesAll(Model(), reached)
      ensures failures == Failing(fails, reached)
    {
      var calls := ForEachExecutor(None);
      reached, failures := CallEach(calls, fails);
    }

    /** Closes a session on every executor. */
    method CloseSession() returns (reached: seq<Exec>)
      requires Valid()
      ensures ReachesAll(Model(), reached)
    {
      var calls := ForEachExecutor(None);
      var failures;
      reached, failures := CallEach(calls, _ => false);
    }

    /** What a callback that calls the executor makes of the calls to it. */
    static method CallEach(calls: seq<(string, Exec)>, fails: Exec -> bool)
      returns (reached: seq<Exec>, failures: seq<Exec>)
      ensures reached == Execs(calls) && failures == Failing(fails, reached)
    {
      reached, failures := [], [];
      for i := 0 to |calls|
        invariant reached == Execs(calls)[..i]
        invariant failures == Failing(fails, reached)
      {
        if fails(calls[i].1) { failures := failures + [calls[i].1]; }
        assert (reached + [calls[i].1])[..|reached|] == reached;
        reached := reached + [calls[i].1];
      }
    }
  }
}
