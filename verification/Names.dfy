/** Dotted names: `strings.Cut` and `strings.Join` on the separator of pkg/task/id.go. Executor names
    and task IDs are both dotted names, so the router and the scheduler share this module. */
module Names {

  const SEP: char := '.'

  datatype Parts = Parts(before: string, after: string, found: bool)

  /** The text around the first separator, as Go's `strings.Cut` returns it. */
  function Cut(s: string): (p: Parts)
    ensures SEP !in p.before
    ensures s == if p.found then p.before + [SEP] + p.after else p.before
    ensures !p.found ==> p.after == ""
  {
    if s == "" then Parts("", "", false)
    else if s[0] == SEP then Parts("", s[1..], true)
    else
      var p := Cut(s[1..]);
      Parts([s[0]] + p.before, p.after, p.found)
  }

  lemma CutCons(c: char, rest: string)
    requires c != SEP
    ensures Cut([c] + rest) == Cut(rest).(before := [c] + Cut(rest).before)
  {
    assert ([c] + rest)[1..] == rest;
  }

  /** The only way to split a name in two at its first separator. */
  lemma {:induction false} CutOfJoin(b: string, a: string)
    requires SEP !in b
    ensures Cut(b + [SEP] + a) == Parts(b, a, true)
  {
    if b == "" {
      assert (b + [SEP] + a)[1..] == a;
    } else {
      var rest := b[1..];
      assert b[0] in b && b == [b[0]] + rest;
      CutOfJoin(rest, a);
      CutCons(b[0], rest + [SEP] + a);
      assert b + [SEP] + a == [b[0]] + (rest + [SEP] + a);
    }
  }

  lemma {:induction false} CutOfPlain(b: string)
    requires SEP !in b
    ensures Cut(b) == Parts(b, "", false)
  {
    if b != "" { CutOfPlain(b[1..]); }
  }

  /** All segments of a name, empty ones included (Go's `strings.Split`). */
  function Segs(s: string): (segs: seq<string>)
    ensures |segs| > 0 && forall g | g in segs :: SEP !in g
    decreases |s|
  {
    var p := Cut(s);
    if p.found then [p.before] + Segs(p.after) else [p.before]
  }

  function Join(segs: seq<string>): string {
    if segs == [] then ""
    else if |segs| == 1 then segs[0]
    else segs[0] + [SEP] + Join(segs[1..])
  }

  lemma {:induction false} JoinOfSegs(s: string)
    ensures Join(Segs(s)) == s
    decreases |s|
  {
    var p := Cut(s);
    if p.found {
      JoinOfSegs(p.after);
      assert Segs(s)[1..] == Segs(p.after);
    }
  }

  lemma {:induction false} SegsOfJoin(segs: seq<string>)
    requires segs != [] && forall g | g in segs :: SEP !in g
    ensures Segs(Join(segs)) == segs
  {
    if |segs| == 1 {
      CutOfPlain(segs[0]);
    } else {
      SegsOfJoin(segs[1..]);
      CutOfJoin(segs[0], Join(segs[1..]));
    }
  }

  /** `ID.GetChild`: the ID joined with any number of names (pkg/task/id.go:26-30). */
  function GetChild(id: string, names: seq<string>): string {
    Join([id] + names)
  }

  /** The segments of several names, one name after the other. */
  function AllSegs(names: seq<string>): seq<string> {
    if names == [] then [] else Segs(names[0]) + AllSegs(names[1..])
  }

  /** A joined ID spells the segments of its parts, whatever separators they hold. */
  lemma {:induction false} SegsOfNames(names: seq<string>)
    requires names != []
    ensures Segs(Join(names)) == AllSegs(names)
  {
    var first, rest := names[0], names[1..];
    if rest == [] {
      assert AllSegs(rest) == [];
    } else {
      SegsOfNames(rest);
      SegsOfTwo(first, Join(rest));
    }
  }

  lemma SegsOfTwo(a: string, b: string)
    ensures Segs(a + [SEP] + b) == Segs(a) + Segs(b)
  {
    JoinOfSegs(a);
    JoinOfSegs(b);
    JoinOfConcat(Segs(a), Segs(b));
    SegsOfJoin(Segs(a) + Segs(b));
  }

  /** A child's ID spells its parent's segments followed by those of the names. */
  lemma SegsOfChild(id: string, names: seq<string>)
    ensures Segs(GetChild(id, names)) == Segs(id) + AllSegs(names)
  {
    SegsOfNames([id] + names);
    assert ([id] + names)[1..] == names;
  }

  lemma {:induction false} JoinOfConcat(a: seq<string>, b: seq<string>)
    requires a != [] && b != []
    ensures Join(a + b) == Join(a) + [SEP] + Join(b)
  {
    assert (a + b)[1..] == a[1..] + b;
    if |a| > 1 {
      JoinOfConcat(a[1..], b);
      var h, t, u := a[0], Join(a[1..]), Join(b);
      assert h + [SEP] + (t + [SEP] + u) == (h + [SEP] + t) + [SEP] + u;
    }
  }
}
