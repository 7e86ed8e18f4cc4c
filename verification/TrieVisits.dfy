/** Visiting every executor of a tree: what `ForEachExecutor` hands to its callback. */
module TrieVisits {
  import opened Names
  import opened Options
  import opened Trie
  import opened TrieRefinement
  import opened TrieTables

  type Call = (string, Exec)

  /** The name built up along a path: nameless children keep the name of their router. */
  function Spell(working: string, k: Key): string
    decreases |k|
  {
    if k == [] then working
    else Spell(if k[0] == "" then working else working + [SEP] + k[0], k[1..])
  }

  /** The name handed out for a key, at the root (where there is no name yet) or below one. */
  function NameUnder(working: Option<string>, k: Key): string {
    match working
    case None => Spell(Head(k), Tail(k))
    case Some(w) => Spell(w, k)
  }

  function ChildName(working: Option<string>, s: string): string {
    if working.None? then s else if s == "" then working.value else working.value + [SEP] + s
  }

  predicate Distinct(keys: seq<Key>) {
    forall i, j | 0 <= i < j < |keys| :: keys[i] != keys[j]
  }

  /** A call made for a key of the tree, under its name. */
  predicate Serves(t: Tree, working: Option<string>, call: Call, k: Key) {
    Canonical(k) && call.0 == NameUnder(working, k) && Lookup(t, k) == Some(call.1)
  }

  ghost predicate Complete(t: Tree, segs: set<string>, keys: seq<Key>) {
    forall k | Canonical(k) && Head(k) in segs && Lookup(t, k).Some? :: k in keys
  }

  /** The calls are for keys that begin with one of the segments, each such key of the tree once. */
  ghost predicate Visited(t: Tree, segs: set<string>, working: Option<string>, calls: seq<Call>, keys: seq<Key>) {
    && |calls| == |keys|
    && (forall i | 0 <= i < |keys| :: Serves(t, working, calls[i], keys[i]) && Head(keys[i]) in segs)
    && Distinct(keys)
    && Complete(t, segs, keys)
  }

  /** Every key of the tree is visited, once. */
  ghost predicate VisitedAll(t: Tree, working: Option<string>, calls: seq<Call>, keys: seq<Key>) {
    match t
    case Leaf(e) => calls == [(NameUnder(working, []), e)] && keys == [[]]
    case Node(kids) => Visited(t, kids.Keys, working, calls, keys)
  }

  ghost predicate VisitsAll(t: Tree, working: Option<string>, calls: seq<Call>) {
    exists keys :: VisitedAll(t, working, calls, keys)
  }

  function Prefix(s: string, keys: seq<Key>): seq<Key> {
    seq(|keys|, i requires 0 <= i < |keys| => Cons(s, keys[i]))
  }

  function Execs(calls: seq<Call>): seq<Exec> {
    seq(|calls|, i requires 0 <= i < |calls| => calls[i].1)
  }

  /** Every executor of the tree is reached, once for each of its keys. */
  ghost predicate ReachesAll(t: Tree, reached: seq<Exec>) {
    exists calls :: VisitsAll(t, None, calls) && reached == Execs(calls)
  }

  /** Of the executors reached, those that fail. */
  function Failing(fails: Exec -> bool, execs: seq<Exec>): seq<Exec> {
    if execs == [] then []
    else
      var last := execs[|execs| - 1];
      Failing(fails, execs[..|execs| - 1]) + if fails(last) then [last] else []
  }

  /** An executor is among the failures as often as it is reached if it fails, and otherwise not at all. */
  lemma {:induction false} FailingCount(fails: Exec -> bool, execs: seq<Exec>, exec: Exec)
    ensures multiset(Failing(fails, execs))[exec] == if fails(exec) then multiset(execs)[exec] else 0
  {
    if execs != [] {
      var n := |execs| - 1;
      FailingCount(fails, execs[..n], exec);
      assert execs == execs[..n] + [execs[n]];
    }
  }

  lemma NameOfChild(working: Option<string>, s: string, k: Key)
    ensures NameUnder(working, Cons(s, k)) == Spell(ChildName(working, s), k)
  {}

  lemma VisitedAllFacts(t: Tree, working: Option<string>, calls: seq<Call>, keys: seq<Key>)
    requires VisitedAll(t, working, calls, keys)
    ensures |calls| == |keys| && Distinct(keys)
    ensures forall i | 0 <= i < |keys| :: Serves(t, working, calls[i], keys[i])
    ensures forall k | Canonical(k) && Lookup(t, k).Some? :: k in keys
  {
    if t.Node? {
      forall k | Canonical(k) && Lookup(t, k).Some? ensures k in keys { assert Head(k) in t.kids; }
    }
  }

  lemma ServesParent(t: Tree, working: Option<string>, s: string, call: Call, k: Key)
    requires t.Node? && s in t.kids && SEP !in s && Serves(t.kids[s], Some(ChildName(working, s)), call, k)
    ensures Serves(t, working, call, Cons(s, k))
  {
    NameOfChild(working, s, k);
  }

  lemma DistinctMore(segs: set<string>, keys: seq<Key>, s: string, keys': seq<Key>)
    requires Distinct(keys) && Distinct(keys') && s !in segs && forall k | k in keys :: Head(k) in segs
    ensures Distinct(keys + Prefix(s, keys'))
  {
    var ks, n := keys + Prefix(s, keys'), |keys|;
    forall i, j | 0 <= i < j < |ks| ensures ks[i] != ks[j] {
      if j >= n {
        assert Head(ks[j]) == s && Tail(ks[j]) == keys'[j - n];
        if i >= n { assert Tail(ks[i]) == keys'[i - n]; } else { assert ks[i] in keys; }
      }
    }
  }

  lemma CompleteMore(t: Tree, segs: set<string>, keys: seq<Key>, s: string, keys': seq<Key>)
    requires t.Node? && Complete(t, segs, keys) && s in t.kids
    requires forall k | Canonical(k) && Lookup(t.kids[s], k).Some? :: k in keys'
    ensures Complete(t, segs + {s}, keys + Prefix(s, keys'))
  {
    var ks := keys + Prefix(s, keys');
    forall k | Canonical(k) && Head(k) in segs + {s} && Lookup(t, k).Some? ensures k in ks {
      KeyParts(k);
      if Head(k) == s {
        var i :| 0 <= i < |keys'| && keys'[i] == Tail(k);
        assert ks[|keys| + i] == k;
      } else {
        assert k in keys;
      }
    }
  }

  lemma ServedMore(t: Tree, segs: set<string>, working: Option<string>, calls: seq<Call>, keys: seq<Key>,
                   s: string, calls': seq<Call>, keys': seq<Key>)
    requires t.Node? && s in t.kids && SEP !in s && |calls| == |keys| && |calls'| == |keys'|
    requires forall i | 0 <= i < |keys| :: Serves(t, working, calls[i], keys[i]) && Head(keys[i]) in segs
    requires forall i | 0 <= i < |keys'| :: Serves(t.kids[s], Some(ChildName(working, s)), calls'[i], keys'[i])
    ensures var cs, ks := calls + calls', keys + Prefix(s, keys');
      |cs| == |ks| && forall i | 0 <= i < |ks| :: Serves(t, working, cs[i], ks[i]) && Head(ks[i]) in segs + {s}
  {
    var cs, ks, n := calls + calls', keys + Prefix(s, keys'), |keys|;
    forall i | 0 <= i < |ks| ensures Serves(t, working, cs[i], ks[i]) && Head(ks[i]) in segs + {s} {
      if i < n {
        assert cs[i] == calls[i] && ks[i] == keys[i];
      } else {
        ServesParent(t, working, s, calls'[i - n], keys'[i - n]);
        assert cs[i] == calls'[i - n] && ks[i] == Cons(s, keys'[i - n]);
      }
    }
  }

  /** Visiting one more child. */
  lemma {:induction false} VisitOneMore(t: Tree, segs: set<string>, working: Option<string>, calls: seq<Call>,
                                        keys: seq<Key>,
                     s: string, calls': seq<Call>, keys': seq<Key>)
    requires t.Node? && s in t.kids && s !in segs && SEP !in s
    requires Visited(t, segs, working, calls, keys)
    requires VisitedAll(t.kids[s], Some(ChildName(working, s)), calls', keys')
    ensures Visited(t, segs + {s}, working, calls + calls', keys + Prefix(s, keys'))
  {
    VisitedAllFacts(t.kids[s], Some(ChildName(working, s)), calls', keys');
    ServedMore(t, segs, working, calls, keys, s, calls', keys');
    assert forall k | k in keys :: Head(k) in segs;
    DistinctMore(segs, keys, s, keys');
    CompleteMore(t, segs, keys, s, keys');
  }

  /** For a key without empty segments the name handed out is the key, joined. */
  lemma {:induction false} SpellIsJoin(w: string, k: Key)
    requires "" !in k
    ensures Spell(w, k) == Join([w] + k)
    decreases |k|
  {
    if k != [] {
      var w' := w + [SEP] + k[0];
      SpellIsJoin(w', k[1..]);
      assert ([w] + k)[1..] == k && ([w'] + k[1..])[1..] == k[1..];
      if |k| > 1 {
        assert w + [SEP] + (k[0] + [SEP] + Join(k[1..])) == w' + [SEP] + Join(k[1..]);
      }
    }
  }

  lemma {:induction false} DistinctCount(keys: seq<Key>)
    requires Distinct(keys)
    ensures |set k | k in keys| == |keys|
  {
    if keys != [] {
      var n := |keys| - 1;
      DistinctCount(keys[..n]);
      assert (set k | k in keys) == (set k | k in keys[..n]) + {keys[n]};
      assert keys[n] !in keys[..n];
    }
  }

  lemma {:induction false} ServedCall(h: seq<Op>, call: Call, k: Key)
    requires PlainOps(h) && Serves(Run(h), None, call, k)
    ensures Called(h, call, k)
  {
    TreeRefinesTable(h, k);
    if k != [] && "" !in k {
      SpellIsJoin(k[0], k[1..]);
      assert [k[0]] + k[1..] == k;
    }
  }

  /** After every history, visiting the router visits exactly the keys of the flat table, each once and
      under its own name when it has no empty segments; the number of visits is the table's size. */
  lemma {:induction false} VisitsTheTable(h: seq<Op>, calls: seq<Call>, keys: seq<Key>)
    requires PlainOps(h) && VisitedAll(Run(h), None, calls, keys)
    ensures |calls| == |keys| == |Table(h)| && Distinct(keys)
    ensures forall k :: k in keys <==> k in Table(h)
    ensures forall i | 0 <= i < |keys| :: Called(h, calls[i], keys[i])
  {
    VisitedAllFacts(Run(h), None, calls, keys);
    forall k | k in Table(h) ensures k in keys {
      KeysCanonical(h, k);
      TreeRefinesTable(h, k);
    }
    forall i | 0 <= i < |keys| ensures Called(h, calls[i], keys[i]) { ServedCall(h, calls[i], keys[i]); }
    DistinctCount(keys);
    assert (set k | k in keys) == Table(h).Keys;
  }

  /** A call for a key of the flat table, under its name. */
  predicate Called(h: seq<Op>, call: Call, k: Key) {
    k in Table(h) && call.1 == Table(h)[k] && ("" !in k ==> call.0 == Join(k))
  }

  /** The keys, among these, under which the table holds an executor. */
  function KeysTo(table: map<Key, Exec>, keys: seq<Key>, exec: Exec): set<Key> {
    set k | k in keys && Get(table, k) == Some(exec)
  }

  function KeysOf(table: map<Key, Exec>, exec: Exec): set<Key> {
    set k | k in table && table[k] == exec
  }

  lemma KeysToLast(table: map<Key, Exec>, keys: seq<Key>, exec: Exec)
    requires keys != [] && Distinct(keys)
    ensures |KeysTo(table, keys, exec)| == |KeysTo(table, keys[..|keys| - 1], exec)|
      + if Get(table, keys[|keys| - 1]) == Some(exec) then 1 else 0
  {
    var front, last := keys[..|keys| - 1], keys[|keys| - 1];
    assert keys == front + [last] && last !in front;
    assert KeysTo(table, keys, exec) ==
      KeysTo(table, front, exec) + if Get(table, last) == Some(exec) then {last} else {};
  }

  lemma ExecsLast(calls: seq<Call>)
    requires calls != []
    ensures Execs(calls) == Execs(calls[..|calls| - 1]) + [calls[|calls| - 1].1]
  {}

  lemma {:induction false} ReachedCount(table: map<Key, Exec>, calls: seq<Call>, keys: seq<Key>, exec: Exec)
    requires |calls| == |keys| && Distinct(keys)
    requires forall i | 0 <= i < |keys| :: Get(table, keys[i]) == Some(calls[i].1)
    ensures multiset(Execs(calls))[exec] == |KeysTo(table, keys, exec)|
  {
    if keys != [] {
      var n := |keys| - 1;
      ReachedCount(table, calls[..n], keys[..n], exec);
      ExecsLast(calls);
      KeysToLast(table, keys, exec);
    }
  }

  lemma {:induction false} VisitCounts(h: seq<Op>, calls: seq<Call>, keys: seq<Key>, exec: Exec)
    requires PlainOps(h) && VisitedAll(Run(h), None, calls, keys)
    ensures multiset(Execs(calls))[exec] == |KeysOf(Table(h), exec)|
  {
    VisitsTheTable(h, calls, keys);
    forall i | 0 <= i < |keys| ensures Get(Table(h), keys[i]) == Some(calls[i].1) {
      assert Called(h, calls[i], keys[i]);
    }
    ReachedCount(Table(h), calls, keys, exec);
    assert KeysTo(Table(h), keys, exec) == KeysOf(Table(h), exec);
  }

  /** After every history, a broadcast reaches each executor as many times as it is registered, and the
      number of executors is the size of the flat table. */
  lemma {:induction false} BroadcastReachesTheTable(h: seq<Op>, reached: seq<Exec>, exec: Exec)
    requires PlainOps(h) && ReachesAll(Run(h), reached)
    ensures |reached| == |Table(h)|
    ensures multiset(reached)[exec] == |KeysOf(Table(h), exec)|
  {
    var calls: seq<Call> :| VisitsAll(Run(h), None, calls) && reached == Execs(calls);
    var keys: seq<Key> :| VisitedAll(Run(h), None, calls, keys);
    VisitsTheTable(h, calls, keys);
    VisitCounts(h, calls, keys, exec);
  }

  /** Registering what a visit of a router hands out, in whatever order it does, rebuilds the router. */
  lemma {:induction false} DumpRebuilds(h: seq<Op>, calls: seq<Call>, keys: seq<Key>)
    requires Registers(h) && VisitedAll(Run(h), None, calls, keys)
    ensures Run(Registrations(calls)) == Run(h)
  {
    VisitsTheTable(h, calls, keys);
    TableProper(h);
    forall i | 0 <= i < |keys| ensures calls[i] == (Join(keys[i]), Table(h)[keys[i]]) {
      assert Called(h, calls[i], keys[i]);
    }
    RedumpRebuilds(h, calls, keys);
  }
}
