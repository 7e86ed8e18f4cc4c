/** When unregistering a name undoes its registration, and what it leaves behind otherwise. */
module TrieUndo {
  import opened Names
  import opened Options
  import opened Trie
  import opened TrieRefinement
  import opened TrieTables
  import opened TrieFlat

  /** Routers stand at every path above the name already, and not an empty one at the name itself. */
  predicate Undoable(f: Flat, k: Key) {
    Prefixes(k) <= f.routers && !(k != [] && k in f.routers && Bare(f, k))
  }

  lemma FlatUndone(f: Flat, k: Key, exec: Exec)
    requires k !in f.table
    ensures FlatUnreg(FlatReg(f, k, exec), k) == f <==> Undoable(f, k)
  {
    var g := FlatReg(f, k, exec);
    assert g.table - {k} == f.table;
    forall r | r in Prefixes(k) ensures r != k && !(k < r) {}
    assert Bare(g, k) <==> Bare(f, k) by {
      assert forall q | q in f.table :: q in g.table;
      assert forall r | r in f.routers :: r in g.routers;
    }
    assert k !in Prefixes(k);
  }

  /** After every history of proper names, unregistering a fresh proper name undoes its registration exactly when
      routers stand above it already and none stands empty at it. */
  lemma {:induction false} UnregisterUndoes(h: seq<Op>, name: string, exec: Exec)
    requires ProperOps(h) && Proper(name) && KeyOf(name) !in Table(h)
    ensures Run(h + [Reg(name, exec), Unreg(name)]) == Run(h) <==> Undoable(FlatRun(h), KeyOf(name))
  {
    var g, gg := h + [Reg(name, exec)], h + [Reg(name, exec), Unreg(name)];
    assert gg[..|h| + 1] == g && g[..|h|] == h;
    assert ProperOps(gg) by {
      forall op | op in gg ensures Proper(op.name) {}
    }
    RunReflects(h);
    SameRouterIffSameFlat(gg, h);
    FlatUndone(FlatRun(h), KeyOf(name), exec);
  }

  /* Registrations alone */

  /** Some registered name properly extends `p`. */
  predicate Extended(table: map<Key, Exec>, p: Key) {
    exists k | k in table :: p < k
  }

  lemma ExtendedMore(table: map<Key, Exec>, k: Key, exec: Exec, r: Key)
    requires k !in table
    ensures Extended(table[k := exec], r) <==> Extended(table, r) || r < k
  {
    var more := table[k := exec];
    if Extended(table, r) {
      var q :| q in table && r < q;
      assert q in more;
    }
    if r < k { assert k in more; }
    if Extended(more, r) {
      var q :| q in more && r < q;
      assert q == k || q in table;
    }
  }

  /** After registrations alone, routers stand at the root and above the registered names, and nowhere else. */
  lemma {:induction false} RegisteredRouters(h: seq<Op>, r: Key)
    requires Registers(h)
    ensures r in FlatRun(h).routers <==> r == [] || Extended(FlatRun(h).table, r)
  {
    if h != [] {
      var front, last := h[..|h| - 1], h[|h| - 1];
      assert last in h && forall op | op in front :: op in h;
      RegisteredRouters(front, r);
      var f, k := FlatRun(front), KeyOf(last.name);
      PrefixIsBelow(r, k);
      if k !in f.table { ExtendedMore(f.table, k, last.exec, r); }
    }
  }

  /** There that is when the name has no separator or some registered name properly extends its parent's. */
  lemma {:induction false} UnregisterUndoesRegistered(h: seq<Op>, name: string, exec: Exec)
    requires Registers(h) && Proper(name) && KeyOf(name) !in Table(h)
    ensures Run(h + [Reg(name, exec), Unreg(name)]) == Run(h) <==>
      var key := KeyOf(name);
      |key| <= 1 || Extended(Table(h), key[..|key| - 1])
  {
    var f, key := FlatRun(h), KeyOf(name);
    UnregisterUndoes(h, name, exec);
    RunReflects(h);
    RegisteredRouters(h, key);
    if key in f.routers && key != [] { assert !Bare(f, key); }
    PrefixesByParent(h, key);
  }

  lemma {:induction false} PrefixesByParent(h: seq<Op>, key: Key)
    requires Registers(h)
    ensures Prefixes(key) <= FlatRun(h).routers <==>
      |key| <= 1 || Extended(FlatRun(h).table, key[..|key| - 1])
  {
    var f := FlatRun(h);
    if key != [] {
      var parent := key[..|key| - 1];
      RegisteredRouters(h, parent);
      PrefixIsBelow(parent, key);
      if |key| <= 1 || Extended(f.table, parent) {
        forall r | r in Prefixes(key) ensures r in f.routers {
          PrefixIsBelow(r, key);
          RegisteredRouters(h, r);
          AboveParent(f.table, r, key);
        }
      }
    }
  }

  lemma AboveParent(table: map<Key, Exec>, r: Key, key: Key)
    requires r < key
    ensures Extended(table, key[..|key| - 1]) ==> Extended(table, r)
    ensures |key| == 1 ==> r == []
  {
    var parent := key[..|key| - 1];
    assert r <= parent;
    if Extended(table, parent) {
      var q :| q in table && parent < q;
      assert r < q;
    }
  }

  /* Two ways in which it does not */

  lemma KeyOfOne(s: string)
    requires SEP !in s && s != ""
    ensures KeyOf(s) == [s] && Segs(s) == [s] && Proper(s)
  {
    CutOfPlain(s);
  }

  lemma KeyOfTwo(a: string, b: string)
    requires SEP !in a && SEP !in b && a != "" && b != ""
    ensures KeyOf(a + [SEP] + b) == [a, b] && Proper(a + [SEP] + b)
  {
    CutOfJoin(a, b);
    KeyOfOne(b);
    assert Segs(a + [SEP] + b) == [a, b];
  }

  lemma KeysOfAB()
    ensures KeyOf("a") == ["a"] && KeyOf("a.b") == ["a", "b"] && Proper("a") && Proper("a.b")
  {
    KeyOfOne("a");
    KeyOfTwo("a", "b");
    assert "a" + [SEP] + "b" == "a.b";
  }

  lemma FlatOfTwo(first: Op, second: Op)
    ensures FlatRun([first]) ==
      if first.Reg? then FlatReg(START, KeyOf(first.name), first.exec) else FlatUnreg(START, KeyOf(first.name))
    ensures FlatRun([first, second]) ==
      var f := FlatRun([first]);
      if second.Reg? then FlatReg(f, KeyOf(second.name), second.exec) else FlatUnreg(f, KeyOf(second.name))
  {
    assert [first][..0] == [] && [first, second][..1] == [first];
  }

  /** Registering and unregistering `a.b` leaves an empty router at `a`; registering and unregistering `a`, a name
      of one segment, then takes it away. */
  lemma LeftoverIsRemoved(exec: Exec, other: Exec)
    ensures var h := [Reg("a.b", exec), Unreg("a.b")];
      Run(h + [Reg("a", other), Unreg("a")]) != Run(h)
  {
    var h := [Reg("a.b", exec), Unreg("a.b")];
    KeysOfAB();
    FlatOfTwo(h[0], h[1]);
    var ab: Key := ["a", "b"];
    var f := FlatRun(h);
    assert ab[..1] == ["a"] && ["a"] in Prefixes(ab);
    PrefixIsBelow(ab, ab);
    assert ["a"] in f.routers && f.table.Keys == {};
    forall r | r in f.routers ensures !(["a"] < r) { PrefixIsBelow(r, ab); }
    assert Bare(f, ["a"]);
    RunReflects(h);
    UnregisterUndoes(h, "a", other);
  }

  /** The empty router left behind hides the wildcard: `*` answered for `a.x` before `a.b` was registered and
      unregistered, and nothing does after. */
  lemma LeftoverHidesWildcard(exec: Exec)
    ensures var h := [Reg("*", exec)];
      && Route(Run(h), "a.x") == Some(Hit(["*"], exec, ["a"], "x"))
      && Route(Run(h + [Reg("a.b", exec), Unreg("a.b")]), "a.x") == None
  {
    var h := [Reg("*", exec)];
    var g := h + [Reg("a.b", exec)];
    StarTrees(exec);
    assert h[..0] == [] && g[..1] == h && (g + [Unreg("a.b")])[..2] == g;
    assert h + [Reg("a.b", exec), Unreg("a.b")] == g + [Unreg("a.b")];
    StarRoutes(exec);
  }

  lemma StarTrees(exec: Exec)
    ensures var star, b := Node(map["*" := Leaf(exec)]), Node(map["b" := Leaf(exec)]);
      && Register(EMPTY, "*", exec).tree == star
      && Register(star, "a.b", exec).tree == Node(star.kids["a" := b])
      && Unregister(Node(star.kids["a" := b]), "a.b") == Node(star.kids["a" := EMPTY])
  {
    CutOfPlain("*");
    CutOfPlain("b");
    CutOfJoin("a", "b");
    assert "a" + [SEP] + "b" == "a.b";
    var b := Node(map["b" := Leaf(exec)]);
    assert Register(EMPTY, "b", exec).tree == b;
    assert Unregister(b, "b") == EMPTY;
  }

  lemma StarRoutes(exec: Exec)
    ensures var star := Node(map["*" := Leaf(exec)]);
      && Route(star, "a.x") == Some(Hit(["*"], exec, ["a"], "x"))
      && Route(Node(star.kids["a" := EMPTY]), "a.x") == None
  {
    var star := Node(map["*" := Leaf(exec)]);
    CutOfJoin("a", "x");
    assert "a" + [SEP] + "x" == "a.x";
    assert Choose(star.kids, "a.x") == Some(Choice("*", ["a"], "x"));
    assert Route(Leaf(exec), "x") == Some(Hit([], exec, [], "x"));
    assert ["a"] + [] == ["a"] && Cons("*", []) == ["*"];
    assert Route(EMPTY, "x") == None;
  }
}
