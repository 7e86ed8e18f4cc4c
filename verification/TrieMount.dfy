/** A router mounted under one segment of another, as a plugin's router is behind the host's remote
    executor: forwarding to it agrees with one router that holds its names under that segment. */
module TrieMount {
  import opened Names
  import opened Options
  import opened Trie
  import opened TrieRefinement
  import opened TrieTables

  /** The host's table with the mounted executor replaced by the names of the mounted table. */
  ghost predicate Merged(merged: map<Key, Exec>, host: map<Key, Exec>, mount: string, mounted: map<Key, Exec>) {
    forall k | Canonical(k) ::
      Get(merged, k) == if k != [] && k[0] == mount then Get(mounted, k[1..]) else Get(host, k)
  }

  function Below(mount: string, landing: Option<Landing>): Option<Landing> {
    if landing.None? then None else Some(landing.value.(key := [mount] + landing.value.key))
  }

  function Requested(mount: string, request: string): string {
    if request == "" then mount else mount + [SEP] + request
  }

  lemma MergedBelow(merged: map<Key, Exec>, host: map<Key, Exec>, mount: string, mounted: map<Key, Exec>, p: Key,
                    s: string)
    requires Merged(merged, host, mount, mounted) && ProperKeys(merged) && ProperKeys(mounted)
    requires mount != "" && SEP !in mount
    ensures Continues(merged, [mount] + p, s) <==> Continues(mounted, p, s)
  {
    if Continues(merged, [mount] + p, s) {
      var k :| k in merged && [mount] + p + [s] <= k;
      assert [mount] + p + [s] == [mount] + (p + [s]);
      KeyBelow(merged, host, mount, mounted, k, p + [s]);
    }
    if Continues(mounted, p, s) {
      var k :| k in mounted && p + [s] <= k;
      CanonicalBelow(mount, k);
      assert Get(merged, [mount] + k) == Get(mounted, k);
      assert [mount] + k in merged && [mount] + p + [s] <= [mount] + k;
    }
  }

  lemma KeyBelow(merged: map<Key, Exec>, host: map<Key, Exec>, mount: string, mounted: map<Key, Exec>, k: Key, q: Key)
    requires Merged(merged, host, mount, mounted) && ProperKeys(merged) && k in merged && [mount] + q <= k
    ensures k[1..] in mounted && q <= k[1..]
  {
    assert k[0] == mount && k == [mount] + k[1..];
    assert Get(merged, k).Some?;
  }

  lemma CanonicalBelow(mount: string, k: Key)
    requires Canonical(k) && mount != "" && SEP !in mount
    ensures Canonical([mount] + k) && ([mount] + k)[1..] == k
  {}

  lemma {:induction false} WalkBelow(merged: map<Key, Exec>, host: map<Key, Exec>, mount: string,
                                     mounted: map<Key, Exec>, p: Key, request: string)
    requires Merged(merged, host, mount, mounted) && ProperKeys(merged) && ProperKeys(mounted)
    requires mount != "" && SEP !in mount && Canonical(p)
    ensures Walk(merged, [mount] + p, request) == Below(mount, Walk(mounted, p, request))
    decreases Beyond(mounted, p), 1
  {
    var b, rest := Cut(request).before, Cut(request).after;
    CanonicalBelow(mount, p);
    assert Get(merged, [mount] + p) == Get(mounted, p);
    MergedBelow(merged, host, mount, mounted, p, b);
    MergedBelow(merged, host, mount, mounted, p, WILDCARD);
    if request == "" && p in mounted {
    } else if Continues(mounted, p, b) {
      WalkStepBelow(merged, host, mount, mounted, p, b, rest);
    } else if Continues(mounted, p, WILDCARD) {
      WalkStepBelow(merged, host, mount, mounted, p, WILDCARD, rest);
    }
  }

  lemma {:induction false} WalkStepBelow(merged: map<Key, Exec>, host: map<Key, Exec>, mount: string,
                      mounted: map<Key, Exec>, p: Key, s: string, rest: string)
    requires Merged(merged, host, mount, mounted) && ProperKeys(merged) && ProperKeys(mounted)
    requires mount != "" && SEP !in mount && Canonical(p) && Continues(mounted, p, s)
    ensures Walk(merged, [mount] + p + [s], rest) == Below(mount, Walk(mounted, p + [s], rest))
    decreases Beyond(mounted, p), 0
  {
    StepShrinks(mounted, p, s);
    StepCanonical(mounted, p, s);
    WalkBelow(merged, host, mount, mounted, p + [s], rest);
    assert [mount] + (p + [s]) == [mount] + p + [s];
  }

  lemma StepCanonical(table: map<Key, Exec>, p: Key, s: string)
    requires ProperKeys(table) && Continues(table, p, s) && Canonical(p)
    ensures Canonical(p + [s])
  {
    var k :| k in table && p + [s] <= k;
    assert k[|p|] == s && s in k;
  }

  lemma RequestedParts(mount: string, request: string)
    requires mount != "" && SEP !in mount && Proper(request)
    ensures var whole := Requested(mount, request);
      Proper(whole) && whole != "" && Cut(whole).before == mount && Cut(whole).after == request
  {
    if request == "" {
      CutOfPlain(mount);
    } else {
      CutOfJoin(mount, request);
      assert Segs(Requested(mount, request)) == [mount] + Segs(request);
    }
  }

  lemma {:induction false} HostForwards(host: seq<Op>, mount: string, request: string)
    requires Registers(host) && mount != "" && SEP !in mount && Proper(request)
    requires forall k | k in Table(host) && k != [] && k[0] == mount :: k == [mount]
    requires [mount] in Table(host)
    ensures Land([], Route(Run(host), Requested(mount, request)))
         == Some(Landing([mount], Table(host)[[mount]], request))
  {
    RequestedParts(mount, request);
    RoutingByTable(host, Requested(mount, request));
    AtMount(Table(host), mount, request);
    assert [] + [mount] == [mount];
  }

  lemma FirstStep(table: map<Key, Exec>, request: string)
    requires request != "" && Continues(table, [], Cut(request).before)
    ensures Walk(table, [], request) == Walk(table, [Cut(request).before], Cut(request).after)
  {
    assert [] + [Cut(request).before] == [Cut(request).before];
  }

  lemma MountContinues(merged: map<Key, Exec>, host: map<Key, Exec>, mount: string, mounted: map<Key, Exec>)
    requires Merged(merged, host, mount, mounted) && ProperKeys(mounted) && mounted != map[]
    requires mount != "" && SEP !in mount
    ensures Continues(merged, [], mount)
  {
    var k :| k in mounted;
    CanonicalBelow(mount, k);
    assert Get(merged, [mount] + k) == Get(mounted, k);
    assert [] + [mount] <= [mount] + k;
  }

  lemma {:induction false} MergedWalk(merged: map<Key, Exec>, host: map<Key, Exec>, mount: string,
                                      mounted: map<Key, Exec>, request: string)
    requires Merged(merged, host, mount, mounted) && ProperKeys(merged) && ProperKeys(mounted) && mounted != map[]
    requires mount != "" && SEP !in mount && Proper(request)
    ensures Walk(merged, [], Requested(mount, request)) == Below(mount, Walk(mounted, [], request))
  {
    RequestedParts(mount, request);
    MountContinues(merged, host, mount, mounted);
    FirstStep(merged, Requested(mount, request));
    WalkBelow(merged, host, mount, mounted, [], request);
    assert [mount] + [] == [mount];
  }

  /** Histories of the host, of the router mounted in it, and of one router that holds the names of both; no
      other name of the host starts with the segment. */
  ghost predicate Mountable(host: seq<Op>, mounted: seq<Op>, merged: seq<Op>, mount: string) {
    && Registers(host) && Registers(mounted) && Registers(merged)
    && mount != "" && SEP !in mount
    && (forall k | k in Table(host) && k != [] && k[0] == mount :: k == [mount])
    && [mount] in Table(host) && Table(mounted) != map[]
    && Merged(Table(merged), Table(host), mount, Table(mounted))
  }

  /** In the merged router the mounted one stands under the segment, unless it holds a nameless executor only,
      which then stands there itself. */
  lemma {:induction false} MountedTree(host: seq<Op>, mounted: seq<Op>, merged: seq<Op>, mount: string)
    requires Mountable(host, mounted, merged, mount) && exists k :: k in Table(mounted) && k != []
    ensures mount in Run(merged).kids && Run(merged).kids[mount] == Run(mounted)
  {
    var t, u := Run(merged), Run(mounted);
    RunTidy(merged);
    RunClean(merged);
    RunHolds(merged);
    RunTidy(mounted);
    RunClean(mounted);
    RunHolds(mounted);
    MountContinues(Table(merged), Table(host), mount, Table(mounted));
    KidIffContinues(t, Table(merged), [], mount);
    HoldsKid(t, Table(merged), [], mount);
    assert [] + [mount] == [mount];
    SameMountedTable(t.kids[mount], u, Table(merged), Table(host), mount, Table(mounted));
    var k :| k in Table(mounted) && k != [];
    assert [] + k == k && Lookup(u, k) == Get(Table(mounted), [] + k) && k[0] in k;
    TablesDetermineTrees(t.kids[mount], u);
  }

  lemma SameMountedTable(t: Tree, u: Tree, merged: map<Key, Exec>, host: map<Key, Exec>, mount: string,
                         mounted: map<Key, Exec>)
    requires Merged(merged, host, mount, mounted) && mount != "" && SEP !in mount
    requires Holds(t, merged, [mount]) && Holds(u, mounted, [])
    ensures SameTable(t, u)
  {
    forall k | Canonical(k) ensures Lookup(t, k) == Lookup(u, k) {
      CanonicalBelow(mount, k);
      assert Get(merged, [mount] + k) == Get(mounted, k);
      assert [] + k == k;
    }
  }

  /** With a nameless executor only, a router finds it for every request. */
  lemma NamelessTakesAll(mounted: seq<Op>, request: string)
    requires Registers(mounted) && Proper(request) && Table(mounted) != map[]
    requires forall k | k in Table(mounted) :: k == []
    ensures Route(Run(mounted), request).Some?
  {
    RoutingByTable(mounted, request);
    forall s ensures !Continues(Table(mounted), [], s) {}
  }

  /** The host forwards the rest of the request to the mounted executor; what the mounted router then
      does with it is what the merged router does with the whole request: the same executor, the same
      rest, and no executor in the same cases. */
  lemma {:induction false} MountComposes(host: seq<Op>, mounted: seq<Op>, merged: seq<Op>, mount: string,
                                         request: string)
    requires Mountable(host, mounted, merged, mount) && Proper(request)
    ensures Land([], Route(Run(host), Requested(mount, request)))
         == Some(Landing([mount], Table(host)[[mount]], request))
    ensures Land([], Route(Run(merged), Requested(mount, request)))
         == Below(mount, Land([], Route(Run(mounted), request)))
  {
    HostForwards(host, mount, request);
    RequestedParts(mount, request);
    RoutingByTable(mounted, request);
    RoutingByTable(merged, Requested(mount, request));
    MergedWalk(Table(merged), Table(host), mount, Table(mounted), request);
  }

  lemma AtMount(host: map<Key, Exec>, mount: string, request: string)
    requires [mount] in host && forall k | k in host && k != [] && k[0] == mount :: k == [mount]
    ensures Continues(host, [], mount)
    ensures Walk(host, [mount], request) == Some(Landing([mount], host[[mount]], request))
  {
    assert [] + [mount] <= [mount];
    forall k, s: string | k in host ensures !([mount] + [s] <= k) {}
  }
}
