/** Routers built by registration alone from names without empty segments: the flat table determines the
    tree, and so what every request reaches. */
module TrieTables {
  import opened Names
  import opened Options
  import opened Seqs
  import opened Trie
  import opened TrieRefinement
  import opened TrieRouting

  /** A name without empty segments, or the empty name. */
  predicate Proper(name: string) {
    name != "" ==> "" !in Segs(name)
  }

  lemma ProperAfter(name: string)
    requires Proper(name)
    ensures name != "" ==> Cut(name).before != ""
    ensures Cut(name).found ==> Cut(name).after != ""
    ensures Proper(Cut(name).after)
  {
    var p := Cut(name);
    if p.found {
      assert Segs(name) == [p.before] + Segs(p.after);
      assert forall s | s in Segs(p.after) :: s in Segs(name);
      assert Segs("") == [""];
      assert p.before in Segs(name);
    } else if name != "" {
      assert Segs(name) == [p.before];
    }
  }

  /** Below the root every router has a named child, and nameless children are executors. */
  predicate Tidy(t: Tree)
    decreases t, 1
  {
    t.Node? ==> (exists s :: s in t.kids && s != "") && TidyKids(t)
  }

  predicate TidyKids(t: Tree)
    requires t.Node?
    decreases t, 0
  {
    forall s | s in t.kids :: if s == "" then t.kids[s].Leaf? else Tidy(t.kids[s])
  }

  lemma {:induction false} RegisterTidy(t: Tree, name: string, exec: Exec)
    requires t.Node? && TidyKids(t) && Proper(name)
    ensures var t' := Register(t, name, exec).tree;
      && TidyKids(t')
      && t.kids.Keys <= t'.kids.Keys
      && Cut(name).before in t'.kids
    decreases |name|, t
  {
    var p := Cut(name);
    ProperAfter(name);
    if p.found {
      RegisterTidy(SubRouter(t, p.before), p.after, exec);
      ProperAfter(p.after);
      var sub := Register(SubRouter(t, p.before), p.after, exec).tree;
      assert Cut(p.after).before in sub.kids;
      assert Tidy(sub);
    } else if p.before in t.kids && t.kids[p.before].Node? {
      var s :| s in t.kids[p.before].kids && s != "";
      RegisterTidy(t.kids[p.before], p.after, exec);
      assert s in Register(t.kids[p.before], p.after, exec).tree.kids;
    }
  }

  /** Some key of a tidy tree; a long one if the tree is a router. */
  lemma {:induction false} SomeKey(t: Tree) returns (k: Key)
    requires Tidy(t) && Clean(t)
    ensures Canonical(k) && Lookup(t, k).Some? && (t.Node? <==> k != [])
    decreases t
  {
    if t.Leaf? {
      k := [];
    } else {
      var s :| s in t.kids && s != "";
      var k' := SomeKey(t.kids[s]);
      k := [s] + k';
      assert k == Cons(s, k');
    }
  }

  ghost predicate SameTable(t: Tree, u: Tree) {
    forall k | Canonical(k) :: Lookup(t, k) == Lookup(u, k)
  }

  lemma KidsAgree(t: Tree, u: Tree)
    requires t.Node? && u.Node? && TidyKids(t) && Clean(t) && SameTable(t, u)
    ensures t.kids.Keys <= u.kids.Keys
  {
    forall s | s in t.kids ensures s in u.kids {
      if s == "" {
        assert Lookup(t, []).Some?;
        assert Lookup(u, []).Some?;
      } else {
        var k := SomeKey(t.kids[s]);
        assert Canonical([s] + k) && [s] + k == Cons(s, k);
        assert Lookup(t, [s] + k).Some?;
        assert Lookup(u, [s] + k).Some?;
      }
    }
  }

  lemma KidTable(t: Tree, u: Tree, s: string)
    requires t.Node? && u.Node? && SameTable(t, u) && s in t.kids && s in u.kids && s != "" && SEP !in s
    ensures SameTable(t.kids[s], u.kids[s])
  {
    forall k | Canonical(k) ensures Lookup(t.kids[s], k) == Lookup(u.kids[s], k) {
      assert [s] + k == Cons(s, k);
      assert Lookup(t, [s] + k) == Lookup(u, [s] + k);
    }
  }

  lemma RoutersAgree(t: Tree, u: Tree)
    requires Tidy(t) && Tidy(u) && Clean(u) && SameTable(t, u)
    ensures u.Node? ==> t.Node?
  {
    if u.Node? {
      var k := SomeKey(u);
      assert Lookup(t, k) == Lookup(u, k);
    }
  }

  /** Two tidy routers that read as the same flat table are the same tree. */
  lemma {:induction false} TablesDetermineTrees(t: Tree, u: Tree)
    requires Clean(t) && Clean(u) && SameTable(t, u)
    requires (Tidy(t) && Tidy(u)) || (t.Node? && u.Node? && TidyKids(t) && TidyKids(u))
    ensures t == u
    decreases t
  {
    if Tidy(t) && Tidy(u) {
      RoutersAgree(t, u);
      RoutersAgree(u, t);
    }
    if t.Leaf? {
      assert Lookup(t, []) == Lookup(u, []);
    } else {
      KidsAgree(t, u);
      KidsAgree(u, t);
      forall s | s in t.kids ensures t.kids[s] == u.kids[s] {
        if s == "" {
          assert Lookup(t, []) == Lookup(t.kids[s], []) && Lookup(u, []) == Lookup(u.kids[s], []);
          assert Lookup(t, []) == Lookup(u, []);
        } else {
          KidTable(t, u, s);
          TablesDetermineTrees(t.kids[s], u.kids[s]);
        }
      }
      assert t.kids == u.kids;
    }
  }

  /** Registrations only, of proper names. */
  predicate Registers(h: seq<Op>) {
    forall op | op in h :: op.Reg? && Proper(op.name)
  }

  lemma {:induction false} RunTidy(h: seq<Op>)
    requires Registers(h)
    ensures TidyKids(Run(h))
  {
    if h != [] {
      RunTidy(h[..|h| - 1]);
      assert h[|h| - 1] in h;
      RegisterTidy(Run(h[..|h| - 1]), h[|h| - 1].name, h[|h| - 1].exec);
    }
  }

  /** Registration order does not matter: the flat table determines the router. */
  lemma {:induction false} OrderIndependence(g: seq<Op>, h: seq<Op>)
    requires Registers(g) && Registers(h) && Table(g) == Table(h)
    ensures Run(g) == Run(h)
  {
    RunTidy(g);
    RunTidy(h);
    RunClean(g);
    RunClean(h);
    forall k | Canonical(k) ensures Lookup(Run(g), k) == Lookup(Run(h), k) {
      TreeRefinesTable(g, k);
      TreeRefinesTable(h, k);
    }
    TablesDetermineTrees(Run(g), Run(h));
  }

  /* Routing by the flat table alone */

  /** Some registered key goes on from `p` with segment `s`. */
  predicate Continues(table: map<Key, Exec>, p: Key, s: string) {
    exists k | k in table :: p + [s] <= k
  }

  /** The prefixes of registered keys that properly extend `p`. */
  function Beyond(table: map<Key, Exec>, p: Key): set<Key> {
    set k, i | k in table && |p| < i <= |k| && p <= k :: k[..i]
  }

  lemma StepShrinks(table: map<Key, Exec>, p: Key, s: string)
    requires Continues(table, p, s)
    ensures Beyond(table, p + [s]) < Beyond(table, p)
  {
    var q := p + [s];
    var k :| k in table && q <= k;
    assert k[..|q|] == q && p <= k;
    assert q in Beyond(table, p) && q !in Beyond(table, q);
    forall x | x in Beyond(table, q) ensures x in Beyond(table, p) {
      var k', i :| k' in table && |q| < i <= |k'| && q <= k' && x == k'[..i];
      assert p <= k';
    }
  }

  datatype Landing = Landing(key: Key, exec: Exec, rest: string)

  /** Where a request lands, from the flat table: the walk has matched prefix `p` of some registered key.
      An exhausted request stops at a registered name; otherwise the next segment is matched literally if
      any name goes on with it, then by the wildcard, and failing both the walk stops. */
  function Walk(table: map<Key, Exec>, p: Key, request: string): Option<Landing>
    decreases Beyond(table, p)
  {
    var c := Cut(request);
    if request == "" && p in table then Some(Landing(p, table[p], ""))
    else if Continues(table, p, c.before) then
      StepShrinks(table, p, c.before);
      Walk(table, p + [c.before], c.after)
    else if Continues(table, p, WILDCARD) then
      StepShrinks(table, p, WILDCARD);
      Walk(table, p + [WILDCARD], c.after)
    else if p in table then Some(Landing(p, table[p], request))
    else None
  }

  function Land(p: Key, hit: Option<Hit>): Option<Landing> {
    if hit.None? then None else Some(Landing(p + hit.value.key, hit.value.exec, hit.value.rest))
  }

  /** The subtree `t` holds exactly the part of the table under `p`. */
  ghost predicate Holds(t: Tree, table: map<Key, Exec>, p: Key) {
    forall k | Canonical(k) :: Lookup(t, k) == Get(table, p + k)
  }

  predicate ProperKeys(table: map<Key, Exec>) {
    forall k | k in table :: Canonical(k) && "" !in k
  }

  lemma HoldsKid(t: Tree, table: map<Key, Exec>, p: Key, s: string)
    requires t.Node? && Holds(t, table, p) && s in t.kids && s != "" && SEP !in s
    ensures Holds(t.kids[s], table, p + [s])
  {
    forall k | Canonical(k) ensures Lookup(t.kids[s], k) == Get(table, p + [s] + k) {
      assert [s] + k == Cons(s, k);
      assert p + ([s] + k) == p + [s] + k;
      assert Lookup(t, [s] + k) == Get(table, p + ([s] + k));
    }
  }

  lemma KidIffContinues(t: Tree, table: map<Key, Exec>, p: Key, s: string)
    requires t.Node? && TidyKids(t) && Clean(t) && Holds(t, table, p) && ProperKeys(table) && s != ""
    ensures s in t.kids <==> Continues(table, p, s)
  {
    if s in t.kids {
      var k := SomeKey(t.kids[s]);
      assert [s] + k == Cons(s, k) && Canonical([s] + k);
      assert Lookup(t, [s] + k).Some?;
      assert p + ([s] + k) in table && p + [s] <= p + ([s] + k);
    }
    if Continues(table, p, s) {
      var k :| k in table && p + [s] <= k;
      var q := k[|p|..];
      assert k == p + q && q[0] == s;
      assert q[|q| - 1] == k[|k| - 1];
      assert Canonical(q);
      assert Lookup(t, q).Some?;
    }
  }

  lemma NamelessIffHere(t: Tree, table: map<Key, Exec>, p: Key)
    requires t.Node? && TidyKids(t) && Holds(t, table, p)
    ensures "" in t.kids <==> p in table
    ensures "" in t.kids ==> t.kids[""] == Leaf(table[p])
  {
    assert p + [] == p;
    assert Lookup(t, []) == Get(table, p);
    if "" in t.kids { assert Lookup(t, []) == Lookup(t.kids[""], []); }
  }

  lemma SuffixCanonical(p: Key, k: Key)
    requires Canonical(k) && p <= k
    ensures Canonical(k[|p|..])
  {
    var q := k[|p|..];
    if q != [] { assert q[|q| - 1] == k[|k| - 1]; }
    forall s | s in q ensures SEP !in s { assert s in k; }
  }

  lemma LeafHoldsOne(t: Tree, table: map<Key, Exec>, p: Key, s: string)
    requires t.Leaf? && Holds(t, table, p) && ProperKeys(table)
    ensures p in table && table[p] == t.exec && !Continues(table, p, s)
  {
    assert p + [] == p;
    assert Lookup(t, []) == Get(table, p);
    forall k | k in table && p <= k ensures k == p {
      var q := k[|p|..];
      SuffixCanonical(p, k);
      assert k == p + q && Lookup(t, q) == Get(table, p + q);
    }
  }

  lemma LandUnder(p: Key, s: string, taken: seq<string>, hit: Option<Hit>)
    requires s != ""
    ensures Land(p, Under(s, taken, hit)) == Land(p + [s], hit)
  {
    if hit.Some? { assert p + ([s] + hit.value.key) == p + [s] + hit.value.key; }
  }

  lemma StopAtLeaf(t: Tree, table: map<Key, Exec>, p: Key, request: string)
    requires t.Leaf? && Holds(t, table, p) && ProperKeys(table)
    ensures Walk(table, p, request) == Land(p, Route(t, request))
  {
    LeafHoldsOne(t, table, p, Cut(request).before);
    LeafHoldsOne(t, table, p, WILDCARD);
    assert p + [] == p;
  }

  lemma NoEmptyStep(table: map<Key, Exec>, p: Key)
    requires ProperKeys(table)
    ensures !Continues(table, p, "")
  {
    forall k | k in table ensures !(p + [""] <= k) {
      if |p| < |k| { assert k[|p|] in k; }
    }
  }

  /** The child chosen by a tidy router is the step of the walk. */
  lemma ChoiceIsStep(t: Tree, table: map<Key, Exec>, p: Key, request: string)
    requires t.Node? && TidyKids(t) && Clean(t) && Holds(t, table, p) && ProperKeys(table) && Proper(request)
    ensures var c, b := Choose(t.kids, request), Cut(request).before;
      if request == "" && p in table then c == Some(Choice("", [""], ""))
      else if Continues(table, p, b) then c == Some(Choice(b, [b], Cut(request).after)) && b != ""
      else if Continues(table, p, WILDCARD) then c == Some(Choice(WILDCARD, [b], Cut(request).after))
      else if p in table then c == Some(Choice("", [], request))
      else c == None
    ensures p in table ==> "" in t.kids && t.kids[""] == Leaf(table[p])
  {
    var b := Cut(request).before;
    ProperAfter(request);
    NamelessIffHere(t, table, p);
    KidIffContinues(t, table, p, WILDCARD);
    NoEmptyStep(table, p);
    if b != "" { KidIffContinues(t, table, p, b); }
  }

  /** Routing through a tidy tree is the walk on its flat table. */
  lemma {:induction false} RouteIsWalk(t: Tree, table: map<Key, Exec>, p: Key, request: string)
    requires Clean(t) && Holds(t, table, p) && ProperKeys(table) && Proper(request)
    requires if t.Node? then TidyKids(t) else Tidy(t)
    ensures Walk(table, p, request) == Land(p, Route(t, request))
    decreases t
  {
    if t.Leaf? {
      StopAtLeaf(t, table, p, request);
    } else {
      ChoiceIsStep(t, table, p, request);
      var choice := Choose(t.kids, request);
      if choice.None? {
      } else if choice.value.child == "" {
        assert p + [] == p;
      } else {
        var s, next := choice.value.child, choice.value.next;
        ProperAfter(request);
        HoldsKid(t, table, p, s);
        RouteIsWalk(t.kids[s], table, p + [s], next);
        LandUnder(p, s, choice.value.taken, Route(t.kids[s], next));
      }
    }
  }

  lemma {:induction false} RunHolds(h: seq<Op>)
    requires Registers(h)
    ensures Holds(Run(h), Table(h), []) && ProperKeys(Table(h))
  {
    TableProper(h);
    forall k | Canonical(k) ensures Lookup(Run(h), k) == Get(Table(h), [] + k) {
      TreeRefinesTable(h, k);
      assert [] + k == k;
    }
  }

  /** Registrations only: routing is the walk on the flat table. */
  lemma {:induction false} RoutingByTable(h: seq<Op>, request: string)
    requires Registers(h) && Proper(request)
    ensures Walk(Table(h), [], request) == Land([], Route(Run(h), request))
    ensures ProperKeys(Table(h))
  {
    RunTidy(h);
    RunClean(h);
    RunHolds(h);
    RouteIsWalk(Run(h), Table(h), [], request);
  }

  lemma {:induction false} KeyOfProper(name: string)
    requires Proper(name)
    ensures KeyOf(name) == if name == "" then [] else Segs(name)
    ensures "" !in KeyOf(name) && Join(KeyOf(name)) == name
    decreases |name|
  {
    var p := Cut(name);
    ProperAfter(name);
    if p.found { KeyOfProper(p.after); }
    if name != "" { JoinOfSegs(name); }
  }

  lemma {:induction false} TableProper(h: seq<Op>)
    requires Registers(h)
    ensures ProperKeys(Table(h))
  {
    if h != [] {
      TableProper(h[..|h| - 1]);
      assert h[|h| - 1] in h;
      KeyOfProper(h[|h| - 1].name);
    }
  }

  /** Some registered name starts with `p`. */
  predicate Starts(table: map<Key, Exec>, p: Key) {
    exists k | k in table :: p <= k
  }

  /** No registered name has a wildcard segment. */
  predicate NoWildcards(table: map<Key, Exec>) {
    forall k | k in table :: WILDCARD !in k
  }

  /** Without wildcards the walk takes the longest prefix of the request, at least the `i` segments already
      matched, that starts some registered name. */
  lemma {:induction false} WalkTakesLongest(table: map<Key, Exec>, segs: seq<string>, i: nat, n: nat)
    requires ProperKeys(table) && NoWildcards(table) && i <= n <= |segs|
    requires forall s | s in segs :: s != "" && SEP !in s
    requires n > i ==> Starts(table, segs[..n])
    requires forall m | n < m <= |segs| :: !Starts(table, segs[..m])
    ensures Walk(table, segs[..i], Join(segs[i..]))
         == if segs[..n] in table then Some(Landing(segs[..n], table[segs[..n]], Join(segs[n..]))) else None
    decreases n - i
  {
    NoWildcardStep(table, segs[..i]);
    if i == |segs| {
      assert segs[i..] == [];
      NoEmptyStep(table, segs[..i]);
    } else {
      CutOfRest(segs, i);
      assert segs[..i + 1] == segs[..i] + [segs[i]];
      if i < n {
        LongerStarts(table, segs, i, n);
        WalkTakesLongest(table, segs, i + 1, n);
      } else {
        assert !Starts(table, segs[..i + 1]);
      }
    }
  }

  lemma NoWildcardStep(table: map<Key, Exec>, p: Key)
    requires NoWildcards(table)
    ensures !Continues(table, p, WILDCARD)
  {
    forall k | k in table ensures !(p + [WILDCARD] <= k) {
      if |p| < |k| { assert k[|p|] in k; }
    }
  }

  lemma LongerStarts(table: map<Key, Exec>, segs: seq<string>, i: nat, n: nat)
    requires i < n <= |segs| && Starts(table, segs[..n])
    ensures Continues(table, segs[..i], segs[i])
  {
    var k :| k in table && segs[..n] <= k;
    assert segs[..n][..i + 1] == segs[..i] + [segs[i]];
    assert k[..n][..i + 1] == k[..i + 1];
  }

  lemma CutOfRest(segs: seq<string>, i: nat)
    requires i < |segs| && forall s | s in segs :: s != "" && SEP !in s
    ensures var request := Join(segs[i..]);
      request != "" && Cut(request).before == segs[i] && Cut(request).after == Join(segs[i + 1..])
  {
    var s := segs[i];
    assert segs[i..][0] == s && segs[i..][1..] == segs[i + 1..] && s in segs;
    if i + 1 < |segs| { CutOfJoin(s, Join(segs[i + 1..])); } else { CutOfPlain(s); }
  }

  /** Registrations only, no wildcards: a request goes to the longest of its prefixes that starts some
      registered name, if that prefix is itself registered, and otherwise nowhere. */
  lemma {:induction false} LongestPrefixRouting(h: seq<Op>, segs: seq<string>, n: nat)
    requires Registers(h) && NoWildcards(Table(h)) && n <= |segs|
    requires forall s | s in segs :: s != "" && SEP !in s
    requires n > 0 ==> Starts(Table(h), segs[..n])
    requires forall m | n < m <= |segs| :: !Starts(Table(h), segs[..m])
    ensures Land([], Route(Run(h), Join(segs)))
         == if segs[..n] in Table(h) then Some(Landing(segs[..n], Table(h)[segs[..n]], Join(segs[n..])))
            else None
  {
    assert segs[..0] == [] && segs[0..] == segs;
    if segs != [] { SegsOfJoin(segs); }
    RoutingByTable(h, Join(segs));
    WalkTakesLongest(Table(h), segs, 0, n);
  }

  /** The registrations that a listing of names and executors makes. */
  function Registrations(listing: seq<(string, Exec)>): (h: seq<Op>)
    ensures |h| == |listing|
  {
    if listing == [] then []
    else Registrations(listing[..|listing| - 1]) + [Reg(listing[|listing| - 1].0, listing[|listing| - 1].1)]
  }

  /** The listing names some of the table's keys, each once, with their executors. */
  predicate Lists(listing: seq<(string, Exec)>, keys: seq<Key>, table: map<Key, Exec>) {
    && |listing| == |keys|
    && (forall i | 0 <= i < |keys| ::
          keys[i] in table && listing[i] == (Join(keys[i]), table[keys[i]]))
    && (forall i, j | 0 <= i < j < |keys| :: keys[i] != keys[j])
  }

  predicate SameEntry(h: seq<Op>, keys: seq<Key>, table: map<Key, Exec>, k: Key) {
    Get(Table(h), k) == if k in keys then Get(table, k) else None
  }

  /** The history's table is the part of a table under these keys. */
  ghost predicate TableOf(h: seq<Op>, keys: seq<Key>, table: map<Key, Exec>) {
    Registers(h) && forall k :: SameEntry(h, keys, table, k)
  }

  lemma {:induction false} ListedTable(listing: seq<(string, Exec)>, keys: seq<Key>, table: map<Key, Exec>)
    requires Lists(listing, keys, table) && ProperKeys(table)
    ensures TableOf(Registrations(listing), keys, table)
  {
    if listing != [] {
      var n := |listing| - 1;
      ListsFewer(listing, keys, table);
      ListedTable(listing[..n], keys[..n], table);
      ProperJoin(keys[n]);
      ListedOneMore(Registrations(listing[..n]), keys, table, Join(keys[n]));
      RegistrationsLast(listing, Join(keys[n]), table[keys[n]]);
    }
  }

  lemma RegistrationsLast(listing: seq<(string, Exec)>, name: string, exec: Exec)
    requires listing != [] && listing[|listing| - 1] == (name, exec)
    ensures Registrations(listing) == Registrations(listing[..|listing| - 1]) + [Reg(name, exec)]
  {}

  lemma ListsFewer(listing: seq<(string, Exec)>, keys: seq<Key>, table: map<Key, Exec>)
    requires Lists(listing, keys, table) && listing != []
    ensures var n := |listing| - 1;
      && Lists(listing[..n], keys[..n], table)
      && keys[n] in table && keys[n] !in keys[..n] && listing[n] == (Join(keys[n]), table[keys[n]])
  {}

  lemma ListedOneMore(h: seq<Op>, keys: seq<Key>, table: map<Key, Exec>, name: string)
    requires keys != [] && Proper(name)
    requires var k, front := keys[|keys| - 1], keys[..|keys| - 1];
      TableOf(h, front, table) && k in table && k !in front && KeyOf(name) == k
    ensures TableOf(h + [Reg(name, table[keys[|keys| - 1]])], keys, table)
  {
    var k, front := keys[|keys| - 1], keys[..|keys| - 1];
    var g := h + [Reg(name, table[k])];
    OneMore(h, name, table[k]);
    InLast(keys);
    forall q ensures SameEntry(g, keys, table, q) {
      assert SameEntry(h, front, table, q) && SameEntry(h, front, table, k);
    }
  }

  lemma OneMore(h: seq<Op>, name: string, exec: Exec)
    requires Registers(h) && Proper(name)
    ensures Registers(h + [Reg(name, exec)])
    ensures Table(h + [Reg(name, exec)]) == if KeyOf(name) in Table(h) then Table(h) else Table(h)[KeyOf(name) := exec]
  {
    assert (h + [Reg(name, exec)])[..|h|] == h;
  }

  lemma ProperJoin(k: Key)
    requires Canonical(k) && "" !in k
    ensures Proper(Join(k)) && KeyOf(Join(k)) == k
  {
    if k != [] { SegsOfJoin(k); }
    JoinOfKey(k);
  }

  lemma SameTables(g: seq<Op>, keys: seq<Key>, h: seq<Op>)
    requires TableOf(g, keys, Table(h)) && forall k | k in Table(h) :: k in keys
    ensures Table(g) == Table(h)
  {
    forall k ensures Get(Table(g), k) == Get(Table(h), k) { assert SameEntry(g, keys, Table(h), k); }
    SameMaps(Table(g), Table(h));
  }

  lemma SameMaps(m: map<Key, Exec>, n: map<Key, Exec>)
    requires forall k :: Get(m, k) == Get(n, k)
    ensures m == n
  {
    assert forall k | k in m :: Get(m, k) == Get(n, k);
    assert forall k | k in n :: Get(m, k) == Get(n, k);
  }

  /** Registering, in any order, everything a router holds rebuilds the same router. */
  lemma {:induction false} RedumpRebuilds(h: seq<Op>, listing: seq<(string, Exec)>, keys: seq<Key>)
    requires Registers(h) && Lists(listing, keys, Table(h))
    requires forall k | k in Table(h) :: k in keys
    ensures Run(Registrations(listing)) == Run(h)
  {
    TableProper(h);
    ListedTable(listing, keys, Table(h));
    SameTables(Registrations(listing), keys, h);
    OrderIndependence(Registrations(listing), h);
  }
}
