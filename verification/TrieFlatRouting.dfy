/** Routing after every history of proper names, read off the flat state: emptied routers take requests too. */
module TrieFlatRouting {
  import opened Names
  import opened Options
  import opened Trie
  import opened TrieRefinement
  import opened TrieTables
  import opened TrieFlat

  /** The names and routers beyond a path. */
  function Beyond(f: Flat, p: Key): set<Key> {
    set q | q in f.table.Keys + f.routers && p < q
  }

  lemma StepIsBeyond(f: Flat, p: Key, s: string)
    requires Present(f, p + [s])
    ensures Beyond(f, p + [s]) < Beyond(f, p)
  {
    var q := p + [s];
    assert p < q && q in Beyond(f, p) && q !in Beyond(f, q);
    forall x | x in Beyond(f, q) ensures x in Beyond(f, p) { assert p <= q < x; }
  }

  /** Where a request lands: the next segment is matched literally if a name or a router is there, then by the
      wildcard, and failing both the walk stops at what is registered so far, if anything is. */
  function FlatWalk(f: Flat, p: Key, request: string): Option<Landing>
    decreases Beyond(f, p)
  {
    var c := Cut(request);
    if request == "" && p in f.table then Some(Landing(p, f.table[p], ""))
    else if Present(f, p + [c.before]) then
      StepIsBeyond(f, p, c.before);
      FlatWalk(f, p + [c.before], c.after)
    else if Present(f, p + [WILDCARD]) then
      StepIsBeyond(f, p, WILDCARD);
      FlatWalk(f, p + [WILDCARD], c.after)
    else if p in f.table then Some(Landing(p, f.table[p], request))
    else None
  }

  lemma NoEmptySegment(f: Flat, p: Key)
    requires FlatSegments(f)
    ensures !Present(f, p + [""])
  {
    assert (p + [""])[|p|] == "";
    assert "" in p + [""] && !Segments(p + [""]);
  }

  lemma NothingUnderLeaf(t: Tree, f: Flat, p: Key, s: string)
    requires t.Leaf? && Reflects(t, f, p)
    ensures !Present(f, p + [s]) && p in f.table && f.table[p] == t.exec
  {
    var none: Key := [];
    assert p + none == p && Segments(none) && MirrorsAt(t, f, p, none);
    if s != "" && SEP !in s {
      assert Segments([s]) && MirrorsAt(t, f, p, [s]);
    } else {
      assert (p + [s])[|p|] == s;
      assert s in p + [s] && !Segments(p + [s]);
    }
  }

  /** The child a router chooses is the step of the walk. */
  lemma ChoiceIsStep(t: Tree, f: Flat, p: Key, request: string)
    requires t.Node? && Reflects(t, f, p) && Proper(request)
    ensures var c, b := Choose(t.kids, request), Cut(request).before;
      if request == "" && p in f.table then c == Some(Choice("", [""], ""))
      else if Present(f, p + [b]) then c == Some(Choice(b, [b], Cut(request).after)) && b != ""
      else if Present(f, p + [WILDCARD]) then c == Some(Choice(WILDCARD, [b], Cut(request).after))
      else if p in f.table then c == Some(Choice("", [], request))
      else c == None
    ensures p in f.table ==> "" in t.kids && t.kids[""] == Leaf(f.table[p])
  {
    var b := Cut(request).before;
    ProperAfter(request);
    NamelessIffNamed(t, f, p);
    ChildIffPresent(t, f, p, WILDCARD);
    NoEmptySegment(f, p);
    if b != "" { ChildIffPresent(t, f, p, b); }
  }

  lemma {:induction false} RouteIsFlatWalk(t: Tree, f: Flat, p: Key, request: string)
    requires Reflects(t, f, p) && Proper(request)
    ensures FlatWalk(f, p, request) == Land(p, Route(t, request))
    decreases t
  {
    if t.Leaf? {
      NothingUnderLeaf(t, f, p, Cut(request).before);
      NothingUnderLeaf(t, f, p, WILDCARD);
      assert p + [] == p;
    } else {
      ChoiceIsStep(t, f, p, request);
      var choice := Choose(t.kids, request);
      if choice.None? {
      } else if choice.value.child == "" {
        assert p + [] == p;
      } else {
        var s, next := choice.value.child, choice.value.next;
        ProperAfter(request);
        MirrorsChild(t, f, p, s);
        RouteIsFlatWalk(t.kids[s], f, p + [s], next);
        LandUnder(p, s, choice.value.taken, Route(t.kids[s], next));
      }
    }
  }

  /** After every history of proper names, unregistrations included, routing is the walk on the flat state. */
  lemma {:induction false} RoutingByFlat(h: seq<Op>, request: string)
    requires ProperOps(h) && Proper(request)
    ensures FlatWalk(FlatRun(h), [], request) == Land([], Route(Run(h), request))
  {
    RunReflects(h);
    RouteIsFlatWalk(Run(h), FlatRun(h), [], request);
  }
}
