/** The value of a router: the tree that its `children` maps form. The functions follow the branches of
    pkg/executor/router/router.go; class Router (Router.dfy) is proved to compute them in place. */
module Trie {
  import opened Names
  import opened Options

  /** A registered executor that is not itself a router, known by its handle. */
  type Exec = nat

  datatype Tree = Leaf(exec: Exec) | Node(kids: map<string, Tree>)

  const EMPTY: Tree := Node(map[])

  const WILDCARD: string := "*"

  /** What a name identifies: its segments without the empty ones at its end. */
  type Key = seq<string>

  function Cons(s: string, k: Key): (r: Key)
    ensures Head(r) == s && Tail(r) == k
  {
    if s == "" && k == [] then [] else [s] + k
  }

  function Head(k: Key): string {
    if k == [] then "" else k[0]
  }

  function Tail(k: Key): Key {
    if k == [] then [] else k[1..]
  }

  function KeyOf(name: string): (k: Key)
    ensures Canonical(k)
    decreases |name|
  {
    var p := Cut(name);
    var rest := if p.found then KeyOf(p.after) else [];
    ConsCanonical(p.before, rest);
    Cons(p.before, rest)
  }

  lemma ConsCanonical(s: string, k: Key)
    requires SEP !in s && Canonical(k)
    ensures Canonical(Cons(s, k))
  {
    var c := Cons(s, k);
    forall i | 0 <= i < |c| ensures SEP !in c[i] {
      assert i > 0 ==> c[i] == k[i - 1] && k[i - 1] in k;
    }
    assert k != [] ==> c[|c| - 1] == k[|k| - 1];
  }

  predicate Canonical(k: Key) {
    && (k != [] ==> k[|k| - 1] != "")
    && (forall s | s in k :: SEP !in s)
  }

  /** The executor registered under a key: the flat reading of a tree. */
  function Lookup(t: Tree, k: Key): Option<Exec>
    decreases t
  {
    match t
    case Leaf(e) => if k == [] then Some(e) else None
    case Node(kids) => if Head(k) in kids then Lookup(kids[Head(k)], Tail(k)) else None
  }

  /** Every key of a router's map is the text before a separator. */
  predicate Clean(t: Tree) {
    t.Node? ==> forall s | s in t.kids :: SEP !in s && Clean(t.kids[s])
  }

  datatype Registration = Registration(tree: Tree, ok: bool)

  /** The router that will hold a longer name: the one there, a leaf promoted to a router in which it
      is nameless, or an empty one. */
  function SubRouter(t: Tree, s: string): (sub: Tree)
    requires t.Node?
    ensures sub.Node?
  {
    if s !in t.kids then EMPTY
    else if t.kids[s].Leaf? then Node(map["" := t.kids[s]])
    else t.kids[s]
  }

  function Register(t: Tree, name: string, exec: Exec): (r: Registration)
    requires t.Node?
    ensures r.tree.Node?
    decreases |name|, t
  {
    var p := Cut(name);
    if p.found then
      var r := Register(SubRouter(t, p.before), p.after, exec);
      Registration(Node(t.kids[p.before := r.tree]), r.ok)
    else if p.before !in t.kids then
      Registration(Node(t.kids[p.before := Leaf(exec)]), true)
    else if t.kids[p.before].Leaf? then
      Registration(t, false)
    else
      var r := Register(t.kids[p.before], p.after, exec);
      Registration(Node(t.kids[p.before := r.tree]), r.ok)
  }

  /** Registering a longer name is registering what follows its first segment, once the router for that
      segment is in place. */
  lemma RegisterThroughSub(t: Tree, name: string, exec: Exec)
    requires t.Node? && Cut(name).found
    ensures var p := Cut(name);
      var mid := Node(t.kids[p.before := SubRouter(t, p.before)]);
      var r := Register(mid.kids[p.before], p.after, exec);
      Register(t, name, exec) == Registration(Node(mid.kids[p.before := r.tree]), r.ok)
  {
    var p := Cut(name);
    var sub, r := SubRouter(t, p.before), Register(SubRouter(t, p.before), p.after, exec);
    assert t.kids[p.before := sub][p.before := r.tree] == t.kids[p.before := r.tree];
  }

  /** `UnregisterExecutors` with one name. The final delete is of the whole name, not of its first
      segment, so it does nothing when the name has a separator. */
  function Unregister(t: Tree, name: string): (u: Tree)
    requires t.Node?
    ensures u.Node?
    decreases |name|, t
  {
    var p := Cut(name);
    if p.before !in t.kids then t
    else if t.kids[p.before].Leaf? then Node(t.kids - {name})
    else
      var sub := Unregister(t.kids[p.before], p.after);
      var kids := t.kids[p.before := sub];
      Node(if sub != EMPTY then kids else kids - {name})
  }

  /** `UnregisterExecutors` returns after this name, whatever names follow: it is not there, or its router
      is not empty afterwards. */
  predicate Stops(t: Tree, name: string)
    requires t.Node?
  {
    var p := Cut(name);
    p.before !in t.kids || (t.kids[p.before].Node? && Unregister(t.kids[p.before], p.after) != EMPTY)
  }

  function UnregisterAll(t: Tree, names: seq<string>): (u: Tree)
    requires t.Node?
    ensures u.Node?
    decreases |names|
  {
    if names == [] then t
    else
      var u := Unregister(t, names[0]);
      if Stops(t, names[0]) then u else UnregisterAll(u, names[1..])
  }

  /** A request that reached an executor: the key the executor is registered under, the segments taken
      off the request on the way, and the rest, which the executor finds in the task's `Executor`. */
  datatype Hit = Hit(key: Key, exec: Exec, taken: seq<string>, rest: string)

  function Under(s: string, taken: seq<string>, hit: Option<Hit>): Option<Hit> {
    if hit.None? then None
    else Some(hit.value.(key := Cons(s, hit.value.key), taken := taken + hit.value.taken))
  }

  /** The child a router forwards to, the segments it takes off the request, and what it leaves. */
  datatype Choice = Choice(child: string, taken: seq<string>, next: string)

  function Choose(kids: map<string, Tree>, request: string): (c: Option<Choice>)
    ensures c.Some? ==> c.value.child in kids
  {
    var p := Cut(request);
    if p.before in kids then Some(Choice(p.before, [p.before], p.after))
    else if WILDCARD in kids then Some(Choice(WILDCARD, [p.before], p.after))
    else if "" in kids then Some(Choice("", [], request))
    else None
  }

  function Route(t: Tree, request: string): Option<Hit>
    decreases t
  {
    match t
    case Leaf(e) => Some(Hit([], e, [], request))
    case Node(kids) =>
      match Choose(kids, request)
      case None => None
      case Some(c) => Under(c.child, c.taken, Route(kids[c.child], c.next))
  }

  lemma RouteByChoice(t: Tree, request: string, c: Choice)
    requires t.Node? && Choose(t.kids, request) == Some(c)
    ensures Route(t, request) == Under(c.child, c.taken, Route(t.kids[c.child], c.next))
  {}
}
