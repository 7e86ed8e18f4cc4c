/** What routing a request through the tree means, and what registration and unregistration do to it. */
module TrieRouting {
  import opened Names
  import opened Options
  import opened Trie
  import opened TrieRefinement

  /* Every reachable tree */

  lemma KeyOfJoin(b: string, a: string)
    requires SEP !in b
    ensures KeyOf(b + [SEP] + a) == Cons(b, KeyOf(a))
  {
    CutOfJoin(b, a);
  }

  lemma JoinTaken(b: string, taken: seq<string>, rest: string)
    ensures Join([b] + taken + [rest]) == b + [SEP] + Join(taken + [rest])
  {
    var segs := [b] + taken + [rest];
    assert segs[0] == b && segs[1..] == taken + [rest];
  }

  /** The segments and the rest, joined, have the request's key, and are the request itself when
      anything is left. */
  predicate Spells(taken: seq<string>, rest: string, request: string) {
    var spelled := Join(taken + [rest]);
    KeyOf(spelled) == KeyOf(request) && (rest != "" ==> request != "" && spelled == request)
  }

  lemma {:induction false} SpellsMore(taken: seq<string>, rest: string, request: string)
    requires Spells(taken, rest, Cut(request).after)
    ensures Spells([Cut(request).before] + taken, rest, request)
  {
    JoinTaken(Cut(request).before, taken, rest);
    KeyOfJoin(Cut(request).before, Join(taken + [rest]));
  }

  /** What the choice takes off the request, and leaves of it. */
  predicate Takes(c: Choice, request: string) {
    if c.taken == [] then c.next == request
    else c.taken == [Cut(request).before] && c.next == Cut(request).after
  }

  lemma {:induction false} SpellsThrough(c: Choice, taken: seq<string>, rest: string, request: string)
    requires Takes(c, request)
    requires Spells(taken, rest, c.next)
    ensures Spells(c.taken + taken, rest, request)
  {
    if c.taken == [] {
      assert c.taken + taken == taken;
    } else {
      SpellsMore(taken, rest, request);
    }
  }

  lemma SpellsWhole(request: string)
    ensures Spells([], request, request)
  {
    assert [] + [request] == [request];
  }

  /** What has been taken off a request, and what the task's `Executor` field holds. */
  datatype Station = Station(taken: seq<string>, field: string)

  function After(taken: seq<string>, stations: seq<Station>): (later: seq<Station>)
    ensures |later| == |stations|
  {
    seq(|stations|, i requires 0 <= i < |stations| => stations[i].(taken := taken + stations[i].taken))
  }

  /** The routers that a request goes through, the outermost first, and the executor it reaches if it does. */
  function Stations(t: Tree, request: string): (stations: seq<Station>)
    ensures stations != [] && stations[0] == Station([], request)
    decreases t
  {
    [Station([], request)] +
    match t
    case Leaf(_) => []
    case Node(kids) =>
      match Choose(kids, request)
      case None => []
      case Some(c) => After(c.taken, Stations(kids[c.child], c.next))
  }

  /** The field at the last stop; a router that finds no executor names it in its error (router.go:170). */
  function LastField(t: Tree, request: string): string {
    var stations := Stations(t, request);
    stations[|stations| - 1].field
  }

  const NOT_FOUND := "no executor found: "

  lemma LastFieldHere(t: Tree, request: string)
    requires t.Leaf? || Choose(t.kids, request) == None
    ensures LastField(t, request) == request
  {}

  lemma LastFieldBelow(t: Tree, request: string, c: Choice)
    requires t.Node? && Choose(t.kids, request) == Some(c)
    ensures LastField(t, request) == LastField(t.kids[c.child], c.next)
  {}

  predicate AllSpell(stations: seq<Station>, request: string) {
    forall i | 0 <= i < |stations| :: Spells(stations[i].taken, stations[i].field, request)
  }

  lemma AfterSpells(c: Choice, inner: seq<Station>, request: string)
    requires Takes(c, request)
    requires AllSpell(inner, c.next)
    ensures AllSpell(After(c.taken, inner), request)
  {
    forall i | 0 <= i < |inner| ensures Spells(c.taken + inner[i].taken, inner[i].field, request) {
      SpellsThrough(c, inner[i].taken, inner[i].field, request);
    }
  }

  lemma FirstSpells(request: string, later: seq<Station>)
    requires AllSpell(later, request)
    ensures AllSpell([Station([], request)] + later, request)
  {
    SpellsWhole(request);
  }

  /** At every depth, whether or not an executor is found in the end, the segments taken off so far joined
      with the field spell the request. */
  lemma {:induction false} StationsSpellRequest(t: Tree, request: string)
    ensures AllSpell(Stations(t, request), request)
    decreases t
  {
    FirstSpells(request, []);
    if t.Node? && Choose(t.kids, request).Some? {
      var c := Choose(t.kids, request).value;
      StationsSpellRequest(t.kids[c.child], c.next);
      AfterSpells(c, Stations(t.kids[c.child], c.next), request);
      FirstSpells(request, After(c.taken, Stations(t.kids[c.child], c.next)));
    }
  }

  /** The last stop of a request that reaches an executor is that executor. */
  lemma {:induction false} LastStationIsHit(t: Tree, request: string)
    requires Route(t, request).Some?
    ensures var stations, hit := Stations(t, request), Route(t, request).value;
      stations[|stations| - 1] == Station(hit.taken, hit.rest)
    decreases t
  {
    if t.Node? {
      var c := Choose(t.kids, request).value;
      LastStationIsHit(t.kids[c.child], c.next);
      RouteByChoice(t, request, c);
    }
  }

  /** A request only ever reaches a registered executor. */
  lemma {:induction false} RouteIsSound(t: Tree, request: string)
    requires Clean(t) && Route(t, request).Some?
    ensures var hit := Route(t, request).value;
      Canonical(hit.key) && Lookup(t, hit.key) == Some(hit.exec)
    decreases t
  {
    if t.Node? {
      var c := Choose(t.kids, request).value;
      RouteIsSound(t.kids[c.child], c.next);
    }
  }

  lemma {:induction false} JoinOfKey(k: Key)
    requires Canonical(k)
    ensures Plain(Join(k)) && KeyOf(Join(k)) == k
    ensures Cut(Join(k)).before == Head(k) && Cut(Join(k)).after == Join(Tail(k))
  {
    if |k| == 1 {
      CutOfPlain(k[0]);
    } else if k != [] {
      JoinOfKey(k[1..]);
      CutOfJoin(k[0], Join(k[1..]));
    }
  }

  /** Every executor in the tree is reached by its own name with nothing left over, wildcards and
      leftover empty routers notwithstanding. */
  lemma {:induction false} ExactNamesWin(t: Tree, k: Key)
    requires Canonical(k) && Lookup(t, k).Some?
    ensures var hit := Route(t, Join(k));
      hit.Some? && hit.value.key == k && hit.value.exec == Lookup(t, k).value && hit.value.rest == ""
    decreases t
  {
    if t.Node? {
      JoinOfKey(k);
      KeyParts(k);
      ExactNamesWin(t.kids[Head(k)], Tail(k));
    }
  }

  /** A request goes on through the child it was sent to as long as that child is there and no other is new. */
  lemma RouteByKept(t: Tree, u: Tree, request: string, c: Choice)
    requires t.Node? && u.Node? && Choose(t.kids, request) == Some(c)
    requires u.kids.Keys <= t.kids.Keys && c.child in u.kids
    requires Route(u.kids[c.child], c.next) == Route(t.kids[c.child], c.next)
    ensures Route(u, request) == Route(t, request)
  {}

  lemma KeyThroughLeaf(t: Tree, request: string, c: Choice)
    requires t.Node? && Choose(t.kids, request) == Some(c) && t.kids[c.child].Leaf?
    ensures Route(t, request).Some? && Route(t, request).value.key == Cons(c.child, [])
  {}

  lemma KeyThroughNode(t: Tree, request: string, c: Choice)
    requires t.Node? && Choose(t.kids, request) == Some(c) && Route(t, request).Some?
    ensures var inner := Route(t.kids[c.child], c.next);
      inner.Some? && Route(t, request).value.key == Cons(c.child, inner.value.key)
  {}

  /** Unregistering another name leaves a request where it was. */
  lemma {:induction false} UnregisterKeepsRoutes(t: Tree, name: string, request: string)
    requires t.Node? && Clean(t)
    requires Route(t, request).Some? && Route(t, request).value.key != KeyOf(name)
    ensures Route(Unregister(t, name), request) == Route(t, request)
    decreases t
  {
    var p, u := Cut(name), Unregister(t, name);
    var c := Choose(t.kids, request).value;
    if p.before in t.kids && t.kids[p.before].Leaf? {
      if p.found {
        DropDotted(t.kids, name);
      } else {
        if c.child == name { KeyThroughLeaf(t, request, c); }
        RouteByKept(t, u, request, c);
      }
    } else if p.before in t.kids {
      UnregisterNode(t, name);
      if c.child == p.before {
        KeyThroughNode(t, request, c);
        UnregisterKeepsRoutes(t.kids[c.child], p.after, c.next);
      }
      RouteByKept(t, u, request, c);
    }
  }
}
