/** How far a call that unregisters several names gets, read off the flat state. */
module TrieReach {
  import opened Names
  import opened Trie
  import opened TrieRefinement
  import opened TrieTables
  import opened TrieUndo
  import opened TrieUnregister
  import opened TrieFlat

  /** The call goes on past a name when something is at its first segment and, if that is a router, the router
      is empty once the name is gone. The empty name must be registered. */
  predicate GoesOn(f: Flat, k: Key) {
    if k == [] then k in f.table
    else Present(f, [k[0]]) && ([k[0]] in f.routers ==> EmptyAfter(f, k))
  }

  /** Nothing is left at the name's first segment, or beyond it, once the name is unregistered. */
  predicate EmptyAfter(f: Flat, k: Key)
    requires k != []
  {
    var g := FlatUnreg(f, k);
    [k[0]] !in g.table && Bare(g, [k[0]])
  }

  /** How many of the names the call processes. */
  function FlatReach(f: Flat, keys: seq<Key>): (n: nat)
    ensures n <= |keys|
    decreases |keys|
  {
    if keys == [] then 0
    else if !GoesOn(f, keys[0]) then 1
    else 1 + FlatReach(FlatUnreg(f, keys[0]), keys[1..])
  }

  lemma EmptyByFlat(t: Tree, f: Flat, p: Key)
    requires t.Node? && Reflects(t, f, p)
    ensures t == EMPTY <==> p !in f.table && Bare(f, p)
  {
    NamelessIffNamed(t, f, p);
    BareByFlat(t, f, p);
    assert t.kids.Keys == {} <==> t.kids == map[];
  }

  /** The sub-router of a longer name's first segment, once the name is unregistered in it. */
  lemma SubLeftLonger(t: Tree, f: Flat, name: string)
    requires t.Node? && Reflects(t, f, []) && Proper(name) && Cut(name).found
    requires Cut(name).before in t.kids && t.kids[Cut(name).before].Node?
    ensures Unregister(t.kids[Cut(name).before], Cut(name).after) == EMPTY <==> EmptyAfter(f, KeyOf(name))
  {
    var p, k := Cut(name), KeyOf(name);
    var s, u := p.before, Unregister(t, name);
    KeySegments(name);
    UnregisterNode(t, name);
    UnregisterMirrors(t, f, name);
    MirrorsChild(u, FlatUnreg(f, k), [], s);
    assert [] + [s] == [s];
    EmptyByFlat(u.kids[s], FlatUnreg(f, k), [s]);
  }

  lemma EmptyAfterOne(f: Flat, s: string)
    ensures EmptyAfter(f, [s]) <==> Bare(f, [s])
  {
    var g := FlatUnreg(f, [s]);
    assert forall k | [s] < k :: (k in g.table <==> k in f.table) && (k in g.routers <==> k in f.routers);
  }

  /** The router at a name of one segment, once the nameless executor in it is gone. */
  lemma SubLeftHere(t: Tree, f: Flat, name: string)
    requires t.Node? && Reflects(t, f, []) && Proper(name) && !Cut(name).found && name != ""
    requires name in t.kids && t.kids[name].Node?
    ensures Unregister(t.kids[name], "") == EMPTY <==> EmptyAfter(f, KeyOf(name))
  {
    var u := t.kids[name];
    KeySegments(name);
    MirrorsChild(t, f, [], name);
    assert [] + [name] == [name] == KeyOf(name);
    UnregisterNamelessChild(u);
    BareByFlat(u, f, [name]);
    EmptyAfterOne(f, name);
  }

  lemma StopsAtNamed(t: Tree, f: Flat, name: string)
    requires t.Node? && Reflects(t, f, []) && Proper(name) && name != ""
    ensures Stops(t, name) <==> !GoesOn(f, KeyOf(name))
  {
    var p := Cut(name);
    KeySegments(name);
    SegmentsParts(KeyOf(name));
    ChildIffPresent(t, f, [], p.before);
    assert [] + [p.before] == [p.before];
    if p.before in t.kids && t.kids[p.before].Node? {
      if p.found { SubLeftLonger(t, f, name); } else { SubLeftHere(t, f, name); }
    }
  }

  /** Whether the call stops at a name is what the flat state says. */
  lemma StopsByFlat(t: Tree, f: Flat, name: string)
    requires t.Node? && Reflects(t, f, []) && Proper(name)
    ensures Stops(t, name) <==> !GoesOn(f, KeyOf(name))
  {
    if name == "" {
      NamelessIffNamed(t, f, []);
    } else {
      StopsAtNamed(t, f, name);
    }
  }

  function KeyList(names: seq<string>): seq<Key> {
    seq(|names|, i requires 0 <= i < |names| => KeyOf(names[i]))
  }

  lemma FlatReachFirst(f: Flat, names: seq<string>)
    requires names != []
    ensures var k := KeyOf(names[0]);
      FlatReach(f, KeyList(names)) ==
      if !GoesOn(f, k) then 1 else 1 + FlatReach(FlatUnreg(f, k), KeyList(names[1..]))
  {
    assert KeyList(names)[1..] == KeyList(names[1..]);
  }

  lemma {:induction false} ReachIsFlatReach(t: Tree, f: Flat, names: seq<string>)
    requires t.Node? && Reflects(t, f, []) && forall name | name in names :: Proper(name)
    ensures Reach(t, names) == FlatReach(f, KeyList(names))
    decreases |names|
  {
    if names != [] {
      assert names[0] in names && forall name | name in names[1..] :: name in names;
      StopsByFlat(t, f, names[0]);
      FlatReachFirst(f, names);
      if !Stops(t, names[0]) {
        UnregisterMirrors(t, f, names[0]);
        ReachIsFlatReach(Unregister(t, names[0]), FlatUnreg(f, KeyOf(names[0])), names[1..]);
      }
    }
  }

  /** After every history of proper names, all names of a call are gone afterwards if and only if those beyond
      the number that the flat state gives were not registered or share a key with one up to it. */
  lemma {:induction false} RemovesAllIffByFlat(h: seq<Op>, names: seq<string>)
    requires ProperOps(h) && forall name | name in names :: Proper(name)
    ensures RemovesAll(h, names) <==> RestAbsent(Table(h), names, FlatReach(FlatRun(h), KeyList(names)))
  {
    RunReflects(h);
    ReachIsFlatReach(Run(h), FlatRun(h), names);
    forall op | op in h && op.Unreg? ensures Plain(op.name) { ProperIsPlain(op.name); }
    forall name | name in names ensures Plain(name) { ProperIsPlain(name); }
    RemovesAllIff(h, names);
  }

  /* Registrations alone */

  /** The registered names that start with a segment. */
  function KeysFrom(table: map<Key, Exec>, s: string): set<Key> {
    set k | k in table && k != [] && k[0] == s
  }

  /** After registrations alone the call goes on past its first name exactly when the first segment is registered
      and nothing else starts with it, or the name has two segments, is registered, and nothing else starts with
      the first. */
  lemma {:induction false} GoesOnByTable(h: seq<Op>, name: string)
    requires Registers(h) && Proper(name)
    ensures var k := KeyOf(name);
      Stops(Run(h), name) <==>
        if k == [] then k !in Table(h)
        else
          var from := KeysFrom(Table(h), k[0]);
          !(from == {[k[0]]} || (|k| == 2 && from == {k}))
  {
    var f, k := FlatRun(h), KeyOf(name);
    RunReflects(h);
    StopsByFlat(Run(h), f, name);
    if k != [] { GoesOnRegistered(h, k); }
  }

  lemma FromFirst(table: map<Key, Exec>, s: string, k: Key)
    ensures k in KeysFrom(table, s) <==> k in table && [s] <= k
  {}

  lemma {:induction false} GoesOnRegistered(h: seq<Op>, k: Key)
    requires Registers(h) && k != []
    ensures var from := KeysFrom(FlatRun(h).table, k[0]);
      GoesOn(FlatRun(h), k) <==> from == {[k[0]]} || (|k| == 2 && from == {k})
  {
    var f, s := FlatRun(h), k[0];
    var from := KeysFrom(f.table, s);
    RegisteredRouters(h, [s]);
    forall q ensures q in from <==> q in f.table && [s] <= q { FromFirst(f.table, s, q); }
    if [s] in f.routers {
      EmptyAfterRegistered(h, k);
      var q :| q in f.table && [s] < q;
      assert q in from && q != [s];
    } else {
      assert forall q | q in from :: q == [s];
    }
  }

  /** A router above registered names is emptied by a name exactly when that is the only one above which it
      stands, and the next segment is its last. */
  lemma {:induction false} EmptyAfterRegistered(h: seq<Op>, k: Key)
    requires Registers(h) && k != [] && [k[0]] in FlatRun(h).routers
    ensures EmptyAfter(FlatRun(h), k) <==> |k| == 2 && KeysFrom(FlatRun(h).table, k[0]) == {k}
  {
    var f, s := FlatRun(h), k[0];
    var from := KeysFrom(f.table, s);
    var g := FlatUnreg(f, k);
    RegisteredRouters(h, [s]);
    forall q ensures q in from <==> q in f.table && [s] <= q { FromFirst(f.table, s, q); }
    if EmptyAfter(f, k) {
      forall q | q in from ensures q == k { assert q in g.table ==> q == [s] || [s] < q; }
      var q :| q in f.table && [s] < q;
      assert q in from && q == k;
      if |k| > 2 { LongerLeaves(h, k); }
    } else if |k| == 2 && from == {k} {
      OnlyOneLeaves(h, k);
    }
  }

  /** Unregistering a name of three segments or more leaves a router below its first. */
  lemma {:induction false} LongerLeaves(h: seq<Op>, k: Key)
    requires Registers(h) && |k| > 2 && k in FlatRun(h).table
    ensures !EmptyAfter(FlatRun(h), k)
  {
    var f, r := FlatRun(h), k[..2];
    RegisteredRouters(h, r);
    assert r < k && Extended(f.table, r);
    assert r in FlatUnreg(f, k).routers && [k[0]] < r;
  }

  lemma {:induction false} OnlyOneLeaves(h: seq<Op>, k: Key)
    requires Registers(h) && |k| == 2 && KeysFrom(FlatRun(h).table, k[0]) == {k}
    ensures EmptyAfter(FlatRun(h), k)
  {
    var f, s := FlatRun(h), k[0];
    var g := FlatUnreg(f, k);
    forall q ensures q in f.table && [s] <= q <==> q == k {
      FromFirst(f.table, s, q);
      assert q in KeysFrom(f.table, s) <==> q == k;
    }
    forall r | r in g.routers ensures !([s] < r) {
      RegisteredRouters(h, r);
      if Extended(f.table, r) {
        var q :| q in f.table && r < q;
        assert [s] < r ==> q == k;
      }
    }
  }
}
