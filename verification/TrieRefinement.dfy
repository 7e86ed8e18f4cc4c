/** The tree refines a flat table from keys to executors, over every history of registrations and
    unregistrations of arbitrary names. */
module TrieRefinement {
  import opened Names
  import opened Options
  import opened Trie

  /** The name does not end in a separator. */
  predicate Plain(name: string) {
    name == "" || name[|name| - 1] != SEP
  }

  lemma PlainAfter(name: string)
    requires Plain(name) && Cut(name).found
    ensures Plain(Cut(name).after) && KeyOf(Cut(name).after) != []
    decreases |name|
  {
    var a := Cut(name).after;
    assert name[|name| - 1] == (if a == "" then SEP else a[|a| - 1]);
    if Cut(a).found { PlainAfter(a); }
  }

  lemma KeyParts(k: Key)
    requires Canonical(k)
    ensures k == Cons(Head(k), Tail(k)) && Canonical(Tail(k)) && SEP !in Head(k)
  {
    if k != [] { assert k == [k[0]] + k[1..]; }
  }

  lemma SubRouterLookup(t: Tree, s: string, k: Key)
    requires t.Node? && Canonical(k)
    ensures Lookup(SubRouter(t, s), k) == if s in t.kids then Lookup(t.kids[s], k) else None
  {
    if k != [] && s in t.kids && t.kids[s].Leaf? && k[0] == "" { assert k[|k| - 1] != ""; }
  }

  lemma PutLookup(t: Tree, s: string, sub: Tree, k: Key)
    requires t.Node? && Canonical(k)
    ensures Lookup(Node(t.kids[s := sub]), k) == if Head(k) == s then Lookup(sub, Tail(k)) else Lookup(t, k)
  {}

  /** Registering adds the key to the flat reading if it was absent, and changes no other key. */
  lemma {:induction false} RegisterLookup(t: Tree, name: string, exec: Exec, k: Key)
    requires t.Node? && Canonical(k)
    ensures Register(t, name, exec).ok == Lookup(t, KeyOf(name)).None?
    ensures Lookup(Register(t, name, exec).tree, k)
         == if k == KeyOf(name) && Register(t, name, exec).ok then Some(exec) else Lookup(t, k)
    decreases |name|, t
  {
    var p := Cut(name);
    var key := KeyOf(name);
    KeyParts(k);
    KeyParts(key);
    if p.found {
      var sub := SubRouter(t, p.before);
      var r := Register(sub, p.after, exec);
      SubRouterLookup(t, p.before, Tail(key));
      SubRouterLookup(t, p.before, Tail(k));
      RegisterLookup(sub, p.after, exec, Tail(k));
      PutLookup(t, p.before, r.tree, k);
    } else if p.before !in t.kids {
      PutLookup(t, p.before, Leaf(exec), k);
    } else if t.kids[p.before].Node? {
      var r := Register(t.kids[p.before], p.after, exec);
      RegisterLookup(t.kids[p.before], p.after, exec, Tail(k));
      PutLookup(t, p.before, r.tree, k);
    }
  }

  lemma {:induction false} RegisterClean(t: Tree, name: string, exec: Exec)
    requires t.Node? && Clean(t)
    ensures Clean(Register(t, name, exec).tree)
    decreases |name|, t
  {
    var p := Cut(name);
    if p.found {
      RegisterClean(SubRouter(t, p.before), p.after, exec);
    } else if p.before in t.kids && t.kids[p.before].Node? {
      RegisterClean(t.kids[p.before], p.after, exec);
    }
  }

  lemma {:induction false} UnregisterClean(t: Tree, name: string)
    requires t.Node? && Clean(t)
    ensures Clean(Unregister(t, name))
    decreases |name|, t
  {
    var p := Cut(name);
    if p.before in t.kids && t.kids[p.before].Node? {
      UnregisterClean(t.kids[p.before], p.after);
    }
  }

  lemma DropLookup(t: Tree, s: string, k: Key)
    requires t.Node? && Canonical(k)
    ensures Lookup(Node(t.kids - {s}), k) == if Head(k) == s then None else Lookup(t, k)
  {}

  /** Deleting a name with a separator from a router's map deletes nothing. */
  lemma DropDotted(kids: map<string, Tree>, name: string)
    requires Cut(name).found && forall s | s in kids :: SEP !in s
    ensures kids - {name} == kids
  {
    assert name[|Cut(name).before|] == SEP;
  }

  lemma UnregisterLeaf(t: Tree, name: string, k: Key)
    requires t.Node? && Clean(t) && Canonical(k) && Plain(name)
    requires Cut(name).before in t.kids && t.kids[Cut(name).before].Leaf?
    ensures Lookup(Node(t.kids - {name}), k) == if k == KeyOf(name) then None else Lookup(t, k)
  {
    KeyParts(k);
    if Cut(name).found {
      PlainAfter(name);
      DropDotted(t.kids, name);
    } else {
      DropLookup(t, name, k);
    }
  }

  lemma UnregisterNode(t: Tree, name: string)
    requires t.Node? && Clean(t) && Cut(name).before in t.kids && t.kids[Cut(name).before].Node?
    ensures var s := Cut(name).before;
      var sub := Unregister(t.kids[s], Cut(name).after);
      Unregister(t, name) == Node(if sub == EMPTY && !Cut(name).found then t.kids - {s} else t.kids[s := sub])
  {
    var p := Cut(name);
    var kids := t.kids[p.before := Unregister(t.kids[p.before], p.after)];
    if p.found {
      DropDotted(kids, name);
    } else {
      assert kids - {name} == t.kids - {p.before};
    }
  }

  /** Unregistering a name that does not end in a separator removes its key and nothing else. */
  lemma {:induction false} UnregisterLookup(t: Tree, name: string, k: Key)
    requires t.Node? && Clean(t) && Canonical(k) && Plain(name)
    ensures Lookup(Unregister(t, name), k) == if k == KeyOf(name) then None else Lookup(t, k)
    decreases |name|, t
  {
    var p := Cut(name);
    var key := KeyOf(name);
    KeyParts(k);
    KeyParts(key);
    if p.found { PlainAfter(name); }
    if p.before in t.kids && t.kids[p.before].Leaf? {
      UnregisterLeaf(t, name, k);
    } else if p.before in t.kids {
      var sub := Unregister(t.kids[p.before], p.after);
      UnregisterNode(t, name);
      UnregisterLookup(t.kids[p.before], p.after, Tail(k));
      PutLookup(t, p.before, sub, k);
      DropLookup(t, p.before, k);
    }
  }

  /** For a name that does end in one, a router where it fails: the name without its last separators is
      registered, under the same key, and stays. */
  lemma {:induction false} UnregisterTrailing(name: string, exec: Exec)
    requires !Plain(name)
    ensures var t := Register(EMPTY, Join(KeyOf(name)), exec).tree;
      Lookup(t, KeyOf(name)) == Some(exec) == Lookup(Unregister(t, name), KeyOf(name))
    decreases |name|
  {
    var p := Cut(name);
    var key := KeyOf(name);
    assert p.found;
    if KeyOf(p.after) == [] {
      TrailingHere(name, exec);
    } else {
      assert name[|name| - 1] == p.after[|p.after| - 1];
      UnregisterTrailing(p.after, exec);
      TrailingBelow(name, exec);
    }
  }

  lemma TrailingHere(name: string, exec: Exec)
    requires Cut(name).found && KeyOf(Cut(name).after) == []
    ensures var t := Register(EMPTY, Join(KeyOf(name)), exec).tree;
      Lookup(t, KeyOf(name)) == Some(exec) == Lookup(Unregister(t, name), KeyOf(name))
  {
    var p := Cut(name);
    CutOfPlain(p.before);
    assert Join(KeyOf(name)) == p.before;
    var t := Node(map[p.before := Leaf(exec)]);
    assert Register(EMPTY, p.before, exec).tree == t;
    DropDotted(t.kids, name);
    assert Unregister(t, name) == t;
  }

  lemma {:induction false} TrailingBelow(name: string, exec: Exec)
    requires Cut(name).found && KeyOf(Cut(name).after) != []
    requires var t := Register(EMPTY, Join(KeyOf(Cut(name).after)), exec).tree;
      var k := KeyOf(Cut(name).after);
      Lookup(t, k) == Some(exec) == Lookup(Unregister(t, Cut(name).after), k)
    ensures var t := Register(EMPTY, Join(KeyOf(name)), exec).tree;
      Lookup(t, KeyOf(name)) == Some(exec) == Lookup(Unregister(t, name), KeyOf(name))
  {
    var p, key := Cut(name), KeyOf(name);
    var rest := Join(KeyOf(p.after));
    var sub := Register(EMPTY, rest, exec).tree;
    var t := Node(map[p.before := sub]);
    CutOfJoin(p.before, rest);
    assert key[1..] == KeyOf(p.after) && key[0] == p.before;
    assert Join(key) == p.before + [SEP] + rest;
    assert Register(EMPTY, Join(key), exec).tree == t;
    var left := t.kids[p.before := Unregister(sub, p.after)];
    DropDotted(left, name);
    assert Unregister(t, name) == Node(left);
  }

  /* Histories */

  datatype Op = Reg(name: string, exec: Exec) | Unreg(name: string)

  /** The router after a history, oldest operation first. */
  function Run(h: seq<Op>): (t: Tree)
    ensures t.Node?
  {
    if h == [] then EMPTY
    else
      var t := Run(h[..|h| - 1]);
      match h[|h| - 1]
      case Reg(name, exec) => Register(t, name, exec).tree
      case Unreg(name) => Unregister(t, name)
  }

  /** The flat table after the same history. */
  function Table(h: seq<Op>): (m: map<Key, Exec>) {
    if h == [] then map[]
    else
      var m := Table(h[..|h| - 1]);
      match h[|h| - 1]
      case Reg(name, exec) => if KeyOf(name) in m then m else m[KeyOf(name) := exec]
      case Unreg(name) => m - {KeyOf(name)}
  }

  function Get(m: map<Key, Exec>, k: Key): Option<Exec> {
    if k in m then Some(m[k]) else None
  }

  /** Unregistered names do not end in a separator. */
  predicate PlainOps(h: seq<Op>) {
    forall op | op in h && op.Unreg? :: Plain(op.name)
  }

  lemma {:induction false} RunClean(h: seq<Op>)
    ensures Clean(Run(h))
  {
    if h != [] {
      RunClean(h[..|h| - 1]);
      var t := Run(h[..|h| - 1]);
      match h[|h| - 1]
      case Reg(name, exec) => RegisterClean(t, name, exec);
      case Unreg(name) => UnregisterClean(t, name);
    }
  }

  /** After every history the tree reads as the flat table: registration is insert-if-absent and
      unregistration removes one key. */
  lemma {:induction false} TreeRefinesTable(h: seq<Op>, k: Key)
    requires PlainOps(h) && Canonical(k)
    ensures Lookup(Run(h), k) == Get(Table(h), k)
  {
    if h != [] {
      var h' := h[..|h| - 1];
      var t := Run(h');
      TreeRefinesTable(h', k);
      match h[|h| - 1]
      case Reg(name, exec) =>
        TreeRefinesTable(h', KeyOf(name));
        RegisterLookup(t, name, exec, k);
      case Unreg(name) =>
        assert h[|h| - 1] in h;
        RunClean(h');
        UnregisterLookup(t, name, k);
    }
  }

  lemma {:induction false} KeysCanonical(h: seq<Op>, k: Key)
    requires k in Table(h)
    ensures Canonical(k)
  {
    if k in Table(h[..|h| - 1]) { KeysCanonical(h[..|h| - 1], k); }
  }

  /** A registration fails exactly when its key is already in the flat table. */
  lemma {:induction false} DuplicateIffPresent(h: seq<Op>, name: string, exec: Exec)
    requires PlainOps(h)
    ensures Register(Run(h), name, exec).ok <==> KeyOf(name) !in Table(h)
  {
    TreeRefinesTable(h, KeyOf(name));
    RegisterLookup(Run(h), name, exec, KeyOf(name));
  }

  ghost predicate RemovesExactly(h: seq<Op>, name: string) {
    forall k | Canonical(k) :: Lookup(Unregister(Run(h), name), k) == Get(Table(h) - {KeyOf(name)}, k)
  }

  lemma {:induction false} PlainRemoves(h: seq<Op>, name: string)
    requires PlainOps(h) && Plain(name)
    ensures RemovesExactly(h, name)
  {
    RunClean(h);
    forall k | Canonical(k) ensures Lookup(Unregister(Run(h), name), k) == Get(Table(h) - {KeyOf(name)}, k) {
      TreeRefinesTable(h, k);
      UnregisterLookup(Run(h), name, k);
    }
  }

  lemma RunOfOne(name: string, exec: Exec)
    ensures Run([Reg(name, exec)]) == Register(EMPTY, name, exec).tree
  {
    assert [Reg(name, exec)][..0] == [];
  }

  lemma TrailingStays(name: string) returns (h: seq<Op>)
    requires !Plain(name)
    ensures PlainOps(h) && !RemovesExactly(h, name)
  {
    var key := KeyOf(name);
    h := [Reg(Join(key), 0)];
    UnregisterTrailing(name, 0);
    RunOfOne(Join(key), 0);
    assert Get(Table(h) - {key}, key) == None;
  }

  /** Unregistering a name removes its key, and no other, in every reachable router if and only if the
      name does not end in a separator. */
  lemma UnregisterExactIffPlain(name: string)
    ensures Plain(name) <==> forall h | PlainOps(h) :: RemovesExactly(h, name)
  {
    if Plain(name) {
      forall h | PlainOps(h) ensures RemovesExactly(h, name) { PlainRemoves(h, name); }
    } else {
      var h := TrailingStays(name);
    }
  }
}
