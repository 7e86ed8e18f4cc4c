/** Unregistering several names in one call, which may return before it has processed them all. */
module TrieUnregister {
  import opened Names
  import opened Options
  import opened Seqs
  import opened Trie
  import opened TrieRefinement

  /** How many of the names are processed before the call returns. */
  function Reach(t: Tree, names: seq<string>): (n: nat)
    requires t.Node?
    ensures n <= |names|
    decreases |names|
  {
    if names == [] then 0
    else if Stops(t, names[0]) then 1
    else 1 + Reach(Unregister(t, names[0]), names[1..])
  }

  function Unregs(names: seq<string>): (h: seq<Op>)
    ensures |h| == |names| && forall i | 0 <= i < |h| :: h[i] == Unreg(names[i])
  {
    seq(|names|, i requires 0 <= i < |names| => Unreg(names[i]))
  }

  lemma UnregsFirst(h: seq<Op>, name: string, rest: seq<string>)
    ensures h + Unregs([name] + rest) == h + [Unreg(name)] + Unregs(rest)
  {}

  lemma UnregsLast(h: seq<Op>, names: seq<string>)
    requires names != []
    ensures h + Unregs(names) == h + Unregs(names[..|names| - 1]) + [Unreg(names[|names| - 1])]
  {}

  lemma AfterUnreg(h: seq<Op>, name: string)
    ensures Run(h + [Unreg(name)]) == Unregister(Run(h), name)
    ensures Table(h + [Unreg(name)]) == Table(h) - {KeyOf(name)}
  {
    assert (h + [Unreg(name)])[..|h|] == h;
  }

  /** The names that are processed. */
  function Reached(t: Tree, names: seq<string>): seq<string>
    requires t.Node?
    decreases |names|
  {
    if names == [] then []
    else [names[0]] + if Stops(t, names[0]) then [] else Reached(Unregister(t, names[0]), names[1..])
  }

  lemma {:induction false} ReachedAreFirst(t: Tree, names: seq<string>)
    requires t.Node?
    ensures Reached(t, names) == names[..Reach(t, names)]
    decreases |names|
  {
    if names != [] && !Stops(t, names[0]) { ReachedAreFirst(Unregister(t, names[0]), names[1..]); }
  }

  lemma {:induction false} ReachedIsHistory(h: seq<Op>, names: seq<string>)
    ensures UnregisterAll(Run(h), names) == Run(h + Unregs(Reached(Run(h), names)))
    decreases |names|
  {
    if names == [] {
      assert h + Unregs([]) == h;
    } else {
      var g := h + [Unreg(names[0])];
      AfterUnreg(h, names[0]);
      if Stops(Run(h), names[0]) {
        UnregsFirst(h, names[0], []);
        assert [names[0]] + [] == [names[0]] && g + Unregs([]) == g;
      } else {
        UnregsFirst(h, names[0], Reached(Run(g), names[1..]));
        ReachedIsHistory(g, names[1..]);
      }
    }
  }

  /** One call with several names is a history of calls with the names it reaches, one each: what holds
      after every history holds after such calls too. */
  lemma {:induction false} UnregisterAllIsHistory(h: seq<Op>, names: seq<string>)
    ensures UnregisterAll(Run(h), names) == Run(h + Unregs(names[..Reach(Run(h), names)]))
  {
    ReachedIsHistory(h, names);
    ReachedAreFirst(Run(h), names);
  }

  function Keys(names: seq<string>): set<Key> {
    set name | name in names :: KeyOf(name)
  }

  lemma KeysLast(names: seq<string>)
    requires names != []
    ensures Keys(names) == Keys(names[..|names| - 1]) + {KeyOf(names[|names| - 1])}
  {
    InLast(names);
  }

  lemma {:induction false} TableAfter(h: seq<Op>, names: seq<string>)
    ensures Table(h + Unregs(names)) == Table(h) - Keys(names)
    decreases |names|
  {
    if names == [] {
      assert h + [] == h;
    } else {
      var front, last := names[..|names| - 1], names[|names| - 1];
      TableAfter(h, front);
      UnregsLast(h, names);
      AfterUnreg(h + Unregs(front), last);
      KeysLast(names);
      DropBoth(Table(h), Keys(front), KeyOf(last));
    }
  }

  lemma DropBoth(m: map<Key, Exec>, ks: set<Key>, k: Key)
    ensures m - ks - {k} == m - (ks + {k})
  {}

  /** In flat terms: exactly the keys of the names it reaches are removed. */
  lemma {:induction false} UnregisterAllLookup(h: seq<Op>, names: seq<string>, k: Key)
    requires PlainOps(h) && (forall name | name in names :: Plain(name)) && Canonical(k)
    ensures Lookup(UnregisterAll(Run(h), names), k) == Get(Table(h) - Keys(names[..Reach(Run(h), names)]), k)
  {
    var reached := names[..Reach(Run(h), names)];
    var g := h + Unregs(reached);
    assert forall name | name in reached :: name in names;
    assert PlainOps(g);
    UnregisterAllIsHistory(h, names);
    TableAfter(h, reached);
    TreeRefinesTable(g, k);
  }

  ghost predicate RemovesAll(h: seq<Op>, names: seq<string>) {
    forall name | name in names :: Lookup(UnregisterAll(Run(h), names), KeyOf(name)).None?
  }

  /** The name was not registered, or has the key of one of these. */
  predicate AbsentOrIn(table: map<Key, Exec>, reached: set<Key>, name: string) {
    KeyOf(name) !in table || KeyOf(name) in reached
  }

  /** No name from a position on is in the table, unless with the key of one before. */
  predicate RestAbsent(table: map<Key, Exec>, names: seq<string>, n: nat)
    requires n <= |names|
  {
    forall name | name in names[n..] :: AbsentOrIn(table, Keys(names[..n]), name)
  }

  lemma GoneIff(h: seq<Op>, names: seq<string>, name: string)
    requires PlainOps(h) && (forall m | m in names :: Plain(m)) && name in names
    ensures Lookup(UnregisterAll(Run(h), names), KeyOf(name)).None? <==>
      AbsentOrIn(Table(h), Keys(names[..Reach(Run(h), names)]), name)
  {
    UnregisterAllLookup(h, names, KeyOf(name));
  }

  /** Of the names up to a position nothing is asked. */
  lemma AbsentOrInSplits(table: map<Key, Exec>, names: seq<string>, n: nat)
    requires n <= |names|
    ensures (forall name | name in names :: AbsentOrIn(table, Keys(names[..n]), name)) <==> RestAbsent(table, names, n)
  {
    var reached := Keys(names[..n]);
    SplitForall(names, n, name => AbsentOrIn(table, reached, name));
    assert forall name | name in names[..n] :: KeyOf(name) in reached;
  }

  /** Every name is gone afterwards if and only if those not reached were not registered, or share their
      key with one that is reached. */
  lemma {:induction false} RemovesAllIff(h: seq<Op>, names: seq<string>)
    requires PlainOps(h) && forall name | name in names :: Plain(name)
    ensures RemovesAll(h, names) <==> RestAbsent(Table(h), names, Reach(Run(h), names))
  {
    var n := Reach(Run(h), names);
    AbsentOrInSplits(Table(h), names, n);
    forall name | name in names
      ensures Lookup(UnregisterAll(Run(h), names), KeyOf(name)).None? <==>
        AbsentOrIn(Table(h), Keys(names[..n]), name)
    {
      GoneIff(h, names, name);
    }
  }

  /** A name that is not registered keeps the next one from being unregistered. */
  lemma EarlyReturnLeaves(exec: Exec)
    ensures var h := [Reg("a", exec)];
      Lookup(UnregisterAll(Run(h), ["b", "a"]), ["a"]) == Some(exec)
  {
    var h := [Reg("a", exec)];
    CutOfPlain("a");
    CutOfPlain("b");
    assert h[..0] == [];
    assert Register(EMPTY, "a", exec).tree == Node(map["a" := Leaf(exec)]);
    assert Run(h) == Node(map["a" := Leaf(exec)]);
    assert UnregisterAll(Run(h), ["b", "a"]) == Run(h);
  }
}
