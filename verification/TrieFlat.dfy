/** A flat state that determines a router after every history of proper names, unregistrations included: the
    names registered, and the paths at which routers stand, emptied ones among them. */
module TrieFlat {
  import opened Names
  import opened Trie
  import opened TrieRefinement
  import opened TrieTables

  /** Neither empty segments nor separators in them. */
  predicate Segments(path: Key) {
    forall s | s in path :: s != "" && SEP !in s
  }

  /** The tree has a router at the end of a path. */
  predicate HasRouter(t: Tree, path: Key) {
    t.Node? && (path == [] || (path[0] in t.kids && HasRouter(t.kids[path[0]], path[1..])))
  }

  /** Nameless children are executors. */
  predicate NamelessLeaves(t: Tree) {
    t.Node? ==> forall s | s in t.kids :: (s == "" ==> t.kids[s].Leaf?) && NamelessLeaves(t.kids[s])
  }

  /* The flat state */

  datatype Flat = Flat(table: map<Key, Exec>, routers: set<Key>)

  const START: Flat := Flat(map[], {[]})

  /** The paths above a name. */
  function Prefixes(k: Key): set<Key> {
    set i | 0 <= i < |k| :: k[..i]
  }

  /** No name and no router lies beyond the path. */
  predicate Bare(f: Flat, path: Key) {
    (forall k | k in f.table :: !(path < k)) && (forall r | r in f.routers :: !(path < r))
  }

  function FlatReg(f: Flat, k: Key, exec: Exec): Flat {
    Flat(if k in f.table then f.table else f.table[k := exec], f.routers + Prefixes(k))
  }

  /** Unregistering a name also removes the router of that very name if it is left empty, and no other. */
  function FlatUnreg(f: Flat, k: Key): Flat {
    Flat(f.table - {k}, if k != [] && Bare(f, k) then f.routers - {k} else f.routers)
  }

  function FlatRun(h: seq<Op>): Flat {
    if h == [] then START
    else
      var f := FlatRun(h[..|h| - 1]);
      match h[|h| - 1]
      case Reg(name, exec) => FlatReg(f, KeyOf(name), exec)
      case Unreg(name) => FlatUnreg(f, KeyOf(name))
  }

  predicate ProperOps(h: seq<Op>) {
    forall op | op in h :: Proper(op.name)
  }

  predicate FlatSegments(f: Flat) {
    (forall k | k in f.table :: Segments(k)) && (forall r | r in f.routers :: Segments(r))
  }

  /* What the operations do to routers */

  lemma KeySegments(name: string)
    requires Proper(name)
    ensures var p, k := Cut(name), KeyOf(name);
      && Segments(k)
      && (k == [] <==> name == "")
      && (name != "" ==> p.before != "" && k == [p.before] + KeyOf(p.after))
      && (p.found <==> KeyOf(p.after) != [])
    ensures Proper(Cut(name).after)
  {
    var p, k := Cut(name), KeyOf(name);
    ProperAfter(name);
    KeyOfProper(name);
    KeyOfProper(p.after);
    forall s | s in k ensures s != "" && SEP !in s {}
  }

  lemma SegmentsParts(k: Key)
    requires Segments(k) && k != []
    ensures k[0] != "" && SEP !in k[0] && Segments(k[1..]) && k == [k[0]] + k[1..]
  {
    assert k[0] in k && forall s | s in k[1..] :: s in k;
  }

  lemma PutRouter(t: Tree, s: string, sub: Tree, k: Key)
    requires t.Node? && k != []
    ensures HasRouter(Node(t.kids[s := sub]), k) <==> if k[0] == s then HasRouter(sub, k[1..]) else HasRouter(t, k)
  {}

  lemma DropRouter(t: Tree, s: string, k: Key)
    requires t.Node? && k != []
    ensures HasRouter(Node(t.kids - {s}), k) <==> k[0] != s && HasRouter(t, k)
  {}

  /** A promoted or new sub-router has no routers below it. */
  lemma SubRouters(t: Tree, s: string, k: Key)
    requires t.Node? && Segments(k)
    ensures HasRouter(SubRouter(t, s), k) <==> k == [] || (s in t.kids && HasRouter(t.kids[s], k))
  {
    if k != [] { SegmentsParts(k); }
  }

  lemma BelowPrefix(s: string, k: Key, rest: Key)
    requires k != []
    ensures k < [s] + rest <==> k[0] == s && k[1..] < rest
  {
    assert k == [k[0]] + k[1..];
    assert ([s] + rest)[1..] == rest;
  }

  /** Registering a name makes a router at every path above it, and none elsewhere. */
  lemma {:induction false} RegisterRouters(t: Tree, name: string, exec: Exec, k: Key)
    requires t.Node? && NamelessLeaves(t) && Proper(name) && Segments(k)
    ensures HasRouter(Register(t, name, exec).tree, k) <==> HasRouter(t, k) || k < KeyOf(name)
    decreases |name|, t
  {
    var p := Cut(name);
    KeySegments(name);
    if k != [] && name != "" {
      SegmentsParts(k);
      BelowPrefix(p.before, k, KeyOf(p.after));
      if p.found {
        var sub := SubRouter(t, p.before);
        SubRouters(t, p.before, k[1..]);
        RegisterRouters(sub, p.after, exec, k[1..]);
        PutRouter(t, p.before, Register(sub, p.after, exec).tree, k);
      } else if p.before !in t.kids {
        PutRouter(t, p.before, Leaf(exec), k);
      } else if t.kids[p.before].Node? {
        RegisterRouters(t.kids[p.before], p.after, exec, k[1..]);
        PutRouter(t, p.before, Register(t.kids[p.before], p.after, exec).tree, k);
      }
    } else if k != [] {
      SegmentsParts(k);
      PutRouter(t, "", Leaf(exec), k);
    } else if name == "" {
      assert Register(t, name, exec).tree.Node?;
    }
  }

  lemma {:induction false} RegisterNameless(t: Tree, name: string, exec: Exec)
    requires t.Node? && NamelessLeaves(t) && Proper(name)
    ensures NamelessLeaves(Register(t, name, exec).tree)
    decreases |name|, t
  {
    var p := Cut(name);
    KeySegments(name);
    if p.found {
      RegisterNameless(SubRouter(t, p.before), p.after, exec);
    } else if p.before in t.kids && t.kids[p.before].Node? {
      RegisterNameless(t.kids[p.before], p.after, exec);
    }
  }

  lemma {:induction false} UnregisterNameless(t: Tree, name: string)
    requires t.Node? && NamelessLeaves(t)
    ensures NamelessLeaves(Unregister(t, name))
    decreases |name|, t
  {
    var p := Cut(name);
    if p.before in t.kids && t.kids[p.before].Node? {
      UnregisterNameless(t.kids[p.before], p.after);
    }
  }

  /** The router at the end of a path holds nothing but, perhaps, a nameless executor. */
  predicate BareAt(t: Tree, path: Key) {
    t.Node? && if path == [] then t.kids.Keys <= {""} else path[0] in t.kids && BareAt(t.kids[path[0]], path[1..])
  }

  lemma UnregisterNamelessChild(t: Tree)
    requires t.Node? && NamelessLeaves(t)
    ensures Unregister(t, "") == Node(t.kids - {""})
    ensures Unregister(t, "") == EMPTY <==> BareAt(t, [])
  {
    assert Unregister(t, "").kids == t.kids - {""};
    assert (t.kids - {""}).Keys == t.kids.Keys - {""};
    assert t.kids.Keys - {""} == {} <==> t.kids - {""} == map[];
  }

  lemma NothingBelowBare(t: Tree, k: Key)
    requires BareAt(t, []) && Segments(k) && k != []
    ensures !HasRouter(t, k)
  {
    SegmentsParts(k);
  }

  /** Unregistering a name removes the router at that name if it then holds nothing, and no other. */
  lemma {:induction false} UnregisterRouters(t: Tree, name: string, k: Key)
    requires t.Node? && Clean(t) && NamelessLeaves(t) && Proper(name) && Segments(k)
    ensures HasRouter(Unregister(t, name), k) <==>
      HasRouter(t, k) && !(name != "" && k == KeyOf(name) && BareAt(t, k))
    decreases |name|, t
  {
    var p := Cut(name);
    KeySegments(name);
    if name == "" {
      UnregisterNamelessChild(t);
      if k != [] { SegmentsParts(k); DropRouter(t, "", k); }
    } else if k != [] && p.before in t.kids {
      SegmentsParts(k);
      SegmentsParts(KeyOf(name));
      assert KeyOf(name)[1..] == KeyOf(p.after);
      if t.kids[p.before].Leaf? {
        if p.found { DropDotted(t.kids, name); } else { DropRouter(t, name, k); }
      } else {
        UnregisterRoutersBelow(t, name, k);
      }
    } else if k != [] {
      assert KeyOf(name)[0] == p.before;
    }
  }

  lemma {:induction false} UnregisterRoutersBelow(t: Tree, name: string, k: Key)
    requires t.Node? && Clean(t) && NamelessLeaves(t) && Proper(name) && Segments(k) && k != [] && name != ""
    requires Cut(name).before in t.kids && t.kids[Cut(name).before].Node?
    ensures HasRouter(Unregister(t, name), k) <==> HasRouter(t, k) && !(k == KeyOf(name) && BareAt(t, k))
    decreases |name|, t, 0
  {
    var p := Cut(name);
    var c := t.kids[p.before];
    var sub := Unregister(c, p.after);
    KeySegments(name);
    SegmentsParts(k);
    assert KeyOf(name)[1..] == KeyOf(p.after);
    UnregisterNode(t, name);
    UnregisterRouters(c, p.after, k[1..]);
    PutRouter(t, p.before, sub, k);
    DropRouter(t, p.before, k);
    if !p.found {
      UnregisterNamelessChild(c);
      if BareAt(c, []) && k[1..] != [] { NothingBelowBare(c, k[1..]); }
    } else {
      ProperAfter(name);
    }
  }

  /* The tree mirrors the flat state */

  predicate MirrorsAt(t: Tree, f: Flat, p: Key, k: Key) {
    Lookup(t, k) == Get(f.table, p + k) && (HasRouter(t, k) <==> p + k in f.routers)
  }

  /** The subtree at a path holds what the flat state says is there. */
  ghost predicate Mirrors(t: Tree, f: Flat, p: Key) {
    forall k | Segments(k) :: MirrorsAt(t, f, p, k)
  }

  /** A reachable tree, and the flat state it mirrors. */
  ghost predicate Reflects(t: Tree, f: Flat, p: Key) {
    Clean(t) && NamelessLeaves(t) && FlatSegments(f) && Mirrors(t, f, p)
  }

  lemma MirrorsChild(t: Tree, f: Flat, p: Key, s: string)
    requires t.Node? && Reflects(t, f, p) && s in t.kids && s != ""
    ensures Reflects(t.kids[s], f, p + [s])
  {
    forall k | Segments(k) ensures MirrorsAt(t.kids[s], f, p + [s], k) {
      var q := [s] + k;
      assert q[0] == s && q[1..] == k && p + q == p + [s] + k;
      assert q == Cons(s, k);
      assert MirrorsAt(t, f, p, q);
    }
  }

  lemma ChildIffPresent(t: Tree, f: Flat, p: Key, s: string)
    requires t.Node? && Reflects(t, f, p) && s != "" && SEP !in s
    ensures s in t.kids <==> Present(f, p + [s])
    ensures s in t.kids ==> (t.kids[s].Node? <==> p + [s] in f.routers)
  {
    var k := [s];
    assert Segments(k) && MirrorsAt(t, f, p, k);
    assert k[0] == s && k[1..] == [];
    assert s in t.kids ==> Lookup(t, k) == Lookup(t.kids[s], []);
    assert s in t.kids ==> (HasRouter(t, k) <==> t.kids[s].Node?);
  }

  /** A name or a router is at the path. */
  predicate Present(f: Flat, path: Key) {
    path in f.table || path in f.routers
  }

  lemma NamelessIffNamed(t: Tree, f: Flat, p: Key)
    requires t.Node? && Reflects(t, f, p)
    ensures "" in t.kids <==> p in f.table
    ensures "" in t.kids ==> t.kids[""] == Leaf(f.table[p])
  {
    var k: Key := [];
    assert p + k == p;
    assert Segments(k) && MirrorsAt(t, f, p, k);
    assert "" in t.kids ==> Lookup(t, k) == Lookup(t.kids[""], k);
  }

  lemma BareByFlat(t: Tree, f: Flat, p: Key)
    requires t.Node? && Reflects(t, f, p)
    ensures BareAt(t, []) <==> Bare(f, p)
  {
    if BareAt(t, []) {
      forall q | q in f.table ensures !(p < q) { NothingBeyond(t, f, p, q); }
      forall q | q in f.routers ensures !(p < q) { NothingBeyond(t, f, p, q); }
    } else {
      var s :| s in t.kids && s != "";
      ChildIffPresent(t, f, p, s);
      assert p < p + [s];
    }
  }

  lemma NothingBeyond(t: Tree, f: Flat, p: Key, q: Key)
    requires t.Node? && Reflects(t, f, p) && BareAt(t, []) && Present(f, q)
    ensures !(p < q)
  {
    if p <= q {
      var k := q[|p|..];
      assert q == p + k;
      assert forall s | s in k :: s in q;
      assert MirrorsAt(t, f, p, k);
      if k != [] {
        SegmentsParts(k);
        NothingBelowBare(t, k);
      }
    }
  }

  lemma {:induction false} BareAtByFlat(t: Tree, f: Flat, p: Key, path: Key)
    requires Reflects(t, f, p) && Segments(path)
    ensures BareAt(t, path) <==> p + path in f.routers && Bare(f, p + path)
    decreases |path|
  {
    assert MirrorsAt(t, f, p, path);
    if path == [] {
      assert p + path == p;
      if t.Node? { BareByFlat(t, f, p); }
    } else if t.Node? {
      SegmentsParts(path);
      if path[0] in t.kids {
        MirrorsChild(t, f, p, path[0]);
        BareAtByFlat(t.kids[path[0]], f, p + [path[0]], path[1..]);
        assert p + [path[0]] + path[1..] == p + path;
      }
    }
  }

  /* Every history */

  lemma PrefixIsBelow(q: Key, k: Key)
    ensures q in Prefixes(k) <==> q < k
  {
    if q < k { assert k[..|q|] == q; }
  }

  lemma RegisterTableAt(t: Tree, f: Flat, name: string, exec: Exec, q: Key)
    requires t.Node? && Canonical(q) && Lookup(t, q) == Get(f.table, q)
    requires Lookup(t, KeyOf(name)) == Get(f.table, KeyOf(name))
    ensures Lookup(Register(t, name, exec).tree, q) == Get(FlatReg(f, KeyOf(name), exec).table, q)
  {
    RegisterLookup(t, name, exec, q);
  }

  lemma RegisterRoutersAt(t: Tree, f: Flat, name: string, exec: Exec, q: Key)
    requires t.Node? && NamelessLeaves(t) && Proper(name) && Segments(q)
    requires HasRouter(t, q) <==> q in f.routers
    ensures HasRouter(Register(t, name, exec).tree, q) <==> q in FlatReg(f, KeyOf(name), exec).routers
  {
    RegisterRouters(t, name, exec, q);
    PrefixIsBelow(q, KeyOf(name));
  }

  lemma RegisterMirrorsAt(t: Tree, f: Flat, name: string, exec: Exec, q: Key)
    requires t.Node? && NamelessLeaves(t) && Proper(name) && Segments(q)
    requires MirrorsAt(t, f, [], q) && MirrorsAt(t, f, [], KeyOf(name))
    ensures MirrorsAt(Register(t, name, exec).tree, FlatReg(f, KeyOf(name), exec), [], q)
  {
    assert [] + q == q && [] + KeyOf(name) == KeyOf(name);
    CanonicalSegments(q);
    RegisterTableAt(t, f, name, exec, q);
    RegisterRoutersAt(t, f, name, exec, q);
  }

  lemma PrefixesSegments(k: Key)
    requires Segments(k)
    ensures forall r | r in Prefixes(k) :: Segments(r)
  {
    forall r | r in Prefixes(k) ensures Segments(r) { assert forall s | s in r :: s in k; }
  }

  lemma RegisterMirrors(t: Tree, f: Flat, name: string, exec: Exec)
    requires t.Node? && Reflects(t, f, []) && Proper(name)
    ensures Reflects(Register(t, name, exec).tree, FlatReg(f, KeyOf(name), exec), [])
  {
    KeySegments(name);
    RegisterClean(t, name, exec);
    RegisterNameless(t, name, exec);
    PrefixesSegments(KeyOf(name));
    forall q | Segments(q)
      ensures MirrorsAt(Register(t, name, exec).tree, FlatReg(f, KeyOf(name), exec), [], q)
    {
      RegisterMirrorsAt(t, f, name, exec, q);
    }
  }

  lemma CanonicalSegments(k: Key)
    requires Segments(k)
    ensures Canonical(k)
  {
    assert k != [] ==> k[|k| - 1] in k;
  }

  lemma ProperIsPlain(name: string)
    requires Proper(name)
    ensures Plain(name)
  {
    if name != "" && name[|name| - 1] == SEP { EndsEmpty(name); }
  }

  lemma {:induction false} EndsEmpty(name: string)
    requires name != "" && name[|name| - 1] == SEP
    ensures "" in Segs(name)
    decreases |name|
  {
    var p := Cut(name);
    if p.after == "" {
      assert Segs("") == [""];
    } else {
      EndsEmpty(p.after);
    }
  }

  lemma UnregisterTableAt(t: Tree, f: Flat, name: string, q: Key)
    requires t.Node? && Clean(t) && Plain(name) && Canonical(q) && Lookup(t, q) == Get(f.table, q)
    ensures Lookup(Unregister(t, name), q) == Get(FlatUnreg(f, KeyOf(name)).table, q)
  {
    UnregisterLookup(t, name, q);
  }

  lemma UnregisterRoutersAt(t: Tree, f: Flat, name: string, q: Key)
    requires t.Node? && Reflects(t, f, []) && Proper(name) && Segments(q)
    ensures HasRouter(Unregister(t, name), q) <==> q in FlatUnreg(f, KeyOf(name)).routers
  {
    KeySegments(name);
    assert [] + q == q && MirrorsAt(t, f, [], q);
    BareAtByFlat(t, f, [], q);
    UnregisterRouters(t, name, q);
  }

  lemma UnregisterMirrorsAt(t: Tree, f: Flat, name: string, q: Key)
    requires t.Node? && Reflects(t, f, []) && Proper(name) && Segments(q)
    ensures MirrorsAt(Unregister(t, name), FlatUnreg(f, KeyOf(name)), [], q)
  {
    ProperIsPlain(name);
    CanonicalSegments(q);
    assert [] + q == q && MirrorsAt(t, f, [], q);
    UnregisterTableAt(t, f, name, q);
    UnregisterRoutersAt(t, f, name, q);
  }

  lemma UnregisterMirrors(t: Tree, f: Flat, name: string)
    requires t.Node? && Reflects(t, f, []) && Proper(name)
    ensures Reflects(Unregister(t, name), FlatUnreg(f, KeyOf(name)), [])
  {
    UnregisterClean(t, name);
    UnregisterNameless(t, name);
    forall q | Segments(q) ensures MirrorsAt(Unregister(t, name), FlatUnreg(f, KeyOf(name)), [], q) {
      UnregisterMirrorsAt(t, f, name, q);
    }
  }

  lemma StartReflects()
    ensures Reflects(EMPTY, START, [])
  {
    forall k | Segments(k) ensures MirrorsAt(EMPTY, START, [], k) { assert [] + k == k; }
  }

  /** After every history of proper names the router mirrors the flat state of that history, whose names are
      those of the flat table. */
  lemma {:induction false} RunReflects(h: seq<Op>)
    requires ProperOps(h)
    ensures Reflects(Run(h), FlatRun(h), []) && FlatRun(h).table == Table(h)
  {
    if h != [] {
      var front, last := h[..|h| - 1], h[|h| - 1];
      assert last in h && forall op | op in front :: op in h;
      RunReflects(front);
      match last
      case Reg(name, exec) => RegisterMirrors(Run(front), FlatRun(front), name, exec);
      case Unreg(name) => UnregisterMirrors(Run(front), FlatRun(front), name);
    } else {
      StartReflects();
    }
  }

  /* The flat state determines the router */

  lemma SameChildren(t: Tree, u: Tree, f: Flat, p: Key)
    requires t.Node? && u.Node? && Reflects(t, f, p) && Reflects(u, f, p)
    ensures t.kids.Keys == u.kids.Keys
  {
    NamelessIffNamed(t, f, p);
    NamelessIffNamed(u, f, p);
    forall s | s != "" && SEP !in s ensures s in t.kids <==> s in u.kids {
      ChildIffPresent(t, f, p, s);
      ChildIffPresent(u, f, p, s);
    }
  }

  lemma {:induction false} FlatDetermines(t: Tree, u: Tree, f: Flat, p: Key)
    requires Reflects(t, f, p) && Reflects(u, f, p)
    ensures t == u
    decreases t
  {
    assert MirrorsAt(t, f, p, []) && MirrorsAt(u, f, p, []);
    if t.Node? {
      SameChildren(t, u, f, p);
      forall s | s in t.kids ensures t.kids[s] == u.kids[s] {
        if s == "" {
          NamelessIffNamed(t, f, p);
          NamelessIffNamed(u, f, p);
        } else {
          MirrorsChild(t, f, p, s);
          MirrorsChild(u, f, p, s);
          FlatDetermines(t.kids[s], u.kids[s], f, p + [s]);
        }
      }
      assert t.kids == u.kids;
    }
  }

  lemma TreeDetermines(t: Tree, f: Flat, g: Flat)
    requires Reflects(t, f, []) && Reflects(t, g, [])
    ensures f == g
  {
    forall k ensures Get(f.table, k) == Get(g.table, k) && (k in f.routers <==> k in g.routers) {
      if Segments(k) { assert [] + k == k && MirrorsAt(t, f, [], k) && MirrorsAt(t, g, [], k); }
    }
    SameMaps(f.table, g.table);
  }

  /** Two histories of proper names, unregistrations included, leave the same router if and only if they leave
      the same flat state. */
  lemma {:induction false} SameRouterIffSameFlat(g: seq<Op>, h: seq<Op>)
    requires ProperOps(g) && ProperOps(h)
    ensures Run(g) == Run(h) <==> FlatRun(g) == FlatRun(h)
  {
    RunReflects(g);
    RunReflects(h);
    if FlatRun(g) == FlatRun(h) { FlatDetermines(Run(g), Run(h), FlatRun(g), []); }
    if Run(g) == Run(h) { TreeDetermines(Run(g), FlatRun(g), FlatRun(h)); }
  }
}
