/** What a checksum of files sees, said of the directory and the names alone: every byte of every matched file,
    one file after the other. */
module StateCheckContents {
  import opened Options
  import opened StateCheck

  /* Where each file's bytes are */

  /** The bytes in the files of these names, a file named twice counted twice. */
  function Length(dir: Dir, names: seq<string>): nat {
    if names == [] then 0
    else
      var name := names[|names| - 1];
      Length(dir, names[..|names| - 1]) + if name in dir then |dir[name]| else 0
  }

  /** Before the bytes of a file stand those of the names before it, and after them those of the names after;
      its own are there in full. */
  predicate FileAt(dir: Dir, names: seq<string>, bytes: Bytes, i: nat)
    requires i < |names|
  {
    var from := Length(dir, names[..i]);
    names[i] in dir && from + |dir[names[i]]| <= |bytes| && bytes[from..from + |dir[names[i]]|] == dir[names[i]]
  }

  lemma FileStillAt(dir: Dir, names: seq<string>, bytes: Bytes, more: Bytes, i: nat)
    requires i < |names| - 1 && FileAt(dir, names[..|names| - 1], bytes, i)
    ensures FileAt(dir, names, bytes + more, i)
  {
    var front := names[..|names| - 1];
    assert front[..i] == names[..i] && front[i] == names[i];
    var from, to := Length(dir, names[..i]), Length(dir, names[..i]) + |dir[names[i]]|;
    assert (bytes + more)[from..to] == bytes[from..to];
  }

  /** The files of a list of names can be read exactly when all are there, and then they are laid out in order. */
  lemma {:induction false} FilesLaidOut(dir: Dir, names: seq<string>)
    ensures OpenAll(dir, names).Some? <==> forall name | name in names :: name in dir
    ensures OpenAll(dir, names).Some? ==>
      && |OpenAll(dir, names).value| == Length(dir, names)
      && forall i | 0 <= i < |names| :: FileAt(dir, names, OpenAll(dir, names).value, i)
    decreases |names|
  {
    if names != [] {
      var front, last := names[..|names| - 1], names[|names| - 1];
      FilesLaidOut(dir, front);
      assert names == front + [last];
      if OpenAll(dir, names).Some? {
        var bytes := OpenAll(dir, front).value;
        forall i | 0 <= i < |names| ensures FileAt(dir, names, bytes + dir[last], i) {
          if i < |names| - 1 {
            FileStillAt(dir, names, bytes, dir[last], i);
          } else {
            assert names[..i] == front;
          }
        }
      }
    }
  }

  /** Patterns are expanded one after the other. */
  lemma {:induction false} ContentsJoin(libs: Libs, dir: Dir, p: seq<string>, q: seq<string>)
    ensures var a, b := Contents(libs, dir, p), Contents(libs, dir, q);
      Contents(libs, dir, p + q) == if a.None? || b.None? then None else Some(a.value + b.value)
    decreases |q|
  {
    if q == [] {
      assert p + q == p;
      assert Contents(libs, dir, p).Some? ==> Contents(libs, dir, p).value + [] == Contents(libs, dir, p).value;
    } else {
      var n := |q| - 1;
      ContentsJoin(libs, dir, p, q[..n]);
      assert (p + q)[..|p + q| - 1] == p + q[..n];
      JoinThree(Contents(libs, dir, p), Contents(libs, dir, q[..n]), Matched(libs, dir, q[n]));
    }
  }

  lemma JoinThree(a: Option<Bytes>, b: Option<Bytes>, c: Option<Bytes>)
    ensures a.Some? && b.Some? && c.Some? ==> a.value + b.value + c.value == a.value + (b.value + c.value)
  {}

  /** A single pattern contributes the files it matches, or fails. */
  lemma PatternLaidOut(libs: Libs, dir: Dir, pattern: string)
    ensures var names, bytes := libs.glob(pattern, dir.Keys), Contents(libs, dir, [pattern]);
      && (bytes.Some? <==> names.Some? && forall name | name in names.value :: name in dir)
      && (bytes.Some? ==>
            && |bytes.value| == Length(dir, names.value)
            && forall i | 0 <= i < |names.value| :: FileAt(dir, names.value, bytes.value, i))
  {
    var names := libs.glob(pattern, dir.Keys);
    assert [pattern][..0] == [];
    assert Contents(libs, dir, [pattern][..0]) == Some([]);
    if names.Some? {
      FilesLaidOut(dir, names.value);
      var bytes := OpenAll(dir, names.value);
      assert bytes.Some? ==> [] + bytes.value == bytes.value;
    }
  }

  /* Changing one file */

  /** Some pattern matches the file. */
  predicate MatchedBy(libs: Libs, names: set<string>, patterns: seq<string>, name: string) {
    exists p | p in patterns :: libs.glob(p, names).Some? && name in libs.glob(p, names).value
  }

  /** Two directories with the same files, all the same but one. */
  predicate OnlyDiffers(a: Dir, b: Dir, name: string) {
    a.Keys == b.Keys && name in a && a[name] != b[name] && forall n | n in a && n != name :: a[n] == b[n]
  }

  lemma {:induction false} OpenAllGrows(a: Dir, b: Dir, name: string, names: seq<string>)
    requires OnlyDiffers(a, b, name) && |a[name]| < |b[name]| && OpenAll(a, names).Some?
    ensures OpenAll(b, names).Some?
    ensures |OpenAll(a, names).value| <= |OpenAll(b, names).value|
    ensures if name in names then |OpenAll(a, names).value| < |OpenAll(b, names).value|
            else OpenAll(a, names) == OpenAll(b, names)
    decreases |names|
  {
    if names != [] {
      var n := |names| - 1;
      OpenAllGrows(a, b, name, names[..n]);
      assert names == names[..n] + [names[n]];
    }
  }

  /** A longer file makes the matched contents longer exactly when a pattern matches it. */
  lemma {:induction false} ContentsGrow(libs: Libs, a: Dir, b: Dir, name: string, patterns: seq<string>)
    requires OnlyDiffers(a, b, name) && |a[name]| < |b[name]| && Contents(libs, a, patterns).Some?
    ensures Contents(libs, b, patterns).Some?
    ensures |Contents(libs, a, patterns).value| <= |Contents(libs, b, patterns).value|
    ensures if MatchedBy(libs, a.Keys, patterns, name)
            then |Contents(libs, a, patterns).value| < |Contents(libs, b, patterns).value|
            else Contents(libs, a, patterns) == Contents(libs, b, patterns)
    decreases |patterns|
  {
    if patterns != [] {
      var n := |patterns| - 1;
      ContentsGrow(libs, a, b, name, patterns[..n]);
      OpenAllGrows(a, b, name, libs.glob(patterns[n], a.Keys).value);
      MatchedByLast(libs, a.Keys, patterns, name);
    }
  }

  lemma MatchedByLast(libs: Libs, names: set<string>, patterns: seq<string>, name: string)
    requires patterns != []
    ensures var n := |patterns| - 1;
      MatchedBy(libs, names, patterns, name) <==>
        || MatchedBy(libs, names, patterns[..n], name)
        || (libs.glob(patterns[n], names).Some? && name in libs.glob(patterns[n], names).value)
  {
    var n := |patterns| - 1;
    assert patterns == patterns[..n] + [patterns[n]];
  }

  lemma JoinsDiffer(a: Bytes, b: Bytes, x: Bytes, y: Bytes)
    requires |a| == |b| && |x| == |y|
    ensures a + x == b + y <==> a == b && x == y
  {
    if a + x == b + y {
      assert a == (a + x)[..|a|] && b == (b + y)[..|b|];
      assert x == (a + x)[|a|..] && y == (b + y)[|b|..];
    }
  }

  lemma {:induction false} OpenAllChanges(a: Dir, b: Dir, name: string, names: seq<string>)
    requires OnlyDiffers(a, b, name) && |a[name]| == |b[name]| && OpenAll(a, names).Some?
    ensures OpenAll(b, names).Some? && |OpenAll(a, names).value| == |OpenAll(b, names).value|
    ensures OpenAll(a, names) == OpenAll(b, names) <==> name !in names
    decreases |names|
  {
    if names != [] {
      var front, last := names[..|names| - 1], names[|names| - 1];
      OpenAllChanges(a, b, name, front);
      assert names == front + [last];
      JoinsDiffer(OpenAll(a, front).value, OpenAll(b, front).value, a[last], b[last]);
    }
  }

  lemma {:induction false} ContentsShift(libs: Libs, a: Dir, b: Dir, name: string, patterns: seq<string>)
    requires OnlyDiffers(a, b, name) && |a[name]| == |b[name]| && Contents(libs, a, patterns).Some?
    ensures Contents(libs, b, patterns).Some?
    ensures |Contents(libs, a, patterns).value| == |Contents(libs, b, patterns).value|
    ensures Contents(libs, a, patterns) == Contents(libs, b, patterns) <==> !MatchedBy(libs, a.Keys, patterns, name)
    decreases |patterns|
  {
    if patterns != [] {
      var n := |patterns| - 1;
      ContentsShift(libs, a, b, name, patterns[..n]);
      OpenAllChanges(a, b, name, libs.glob(patterns[n], a.Keys).value);
      MatchedByLast(libs, a.Keys, patterns, name);
      JoinsDiffer(Contents(libs, a, patterns[..n]).value, Contents(libs, b, patterns[..n]).value,
                  Matched(libs, a, patterns[n]).value, Matched(libs, b, patterns[n]).value);
    }
  }

  lemma {:induction false} StillReadable(libs: Libs, a: Dir, b: Dir, patterns: seq<string>)
    requires a.Keys == b.Keys
    ensures Contents(libs, a, patterns).Some? <==> Contents(libs, b, patterns).Some?
    decreases |patterns|
  {
    if patterns != [] {
      var names := libs.glob(patterns[|patterns| - 1], a.Keys);
      StillReadable(libs, a, b, patterns[..|patterns| - 1]);
      if names.Some? {
        FilesLaidOut(a, names.value);
        FilesLaidOut(b, names.value);
      }
    }
  }

  /** Any change to one file, of length or of a single byte, changes what is hashed exactly when some pattern
      matches the file. */
  lemma ContentsChange(libs: Libs, a: Dir, b: Dir, name: string, patterns: seq<string>)
    requires OnlyDiffers(a, b, name) && Contents(libs, a, patterns).Some?
    ensures Contents(libs, b, patterns).Some?
    ensures Contents(libs, a, patterns) != Contents(libs, b, patterns) <==> MatchedBy(libs, a.Keys, patterns, name)
  {
    StillReadable(libs, a, b, patterns);
    if |a[name]| < |b[name]| {
      ContentsGrow(libs, a, b, name, patterns);
    } else if |b[name]| < |a[name]| {
      ContentsGrow(libs, b, a, name, patterns);
    } else {
      ContentsShift(libs, a, b, name, patterns);
    }
  }
}
