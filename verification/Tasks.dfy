/** Tasks, their arguments and their results (pkg/task/task.go, pkg/task/result.go), and what JSON makes
    of them. */
module Tasks {
  import opened Options

  /** Argument values: what Go's `any` holds here, struct types aside. Every finite double is a whole number
      of units of 2 to the -1074. */
  datatype Value =
    | Null
    | Bool(b: bool)
    | Int(n: int)
    | Float(units: int)
    | Str(s: string)
    | List(items: seq<Value>)
    | Dict(fields: map<string, Value>)

  /** A slice that is nil or not; JSON and gRPC do not keep the difference when it is empty. */
  type Slice = Option<seq<string>>

  function Elems(s: Slice): seq<string> {
    if s.None? then [] else s.value
  }

  datatype Task = Task(id: string, executor: string, inputs: Slice, dependencies: Slice, args: Value)

  function Pow2(n: nat): nat {
    if n == 0 then 1 else 2 * Pow2(n - 1)
  }

  const UNITS_PER_ONE: nat := Pow2(1074)

  /* Encoding as JSON and decoding again */

  /** Every number comes back as a float. */
  function Decoded(v: Value): Value {
    match v
    case Int(n) => Float(n * UNITS_PER_ONE)
    case List(items) => List(seq(|items|, i requires 0 <= i < |items| => Decoded(items[i])))
    case Dict(fields) => Dict(map k | k in fields :: Decoded(fields[k]))
    case _ => v
  }

  /** A slice tagged `omitempty` comes back nil when it is empty. */
  function OmitEmpty(s: Slice): Slice {
    if s == Some([]) then None else s
  }

  function DecodedTask(t: Task): Task {
    t.(inputs := OmitEmpty(t.inputs), dependencies := OmitEmpty(t.dependencies), args := Decoded(t.args))
  }

  function DecodedTasks(ts: seq<Task>): seq<Task> {
    seq(|ts|, i requires 0 <= i < |ts| => DecodedTask(ts[i]))
  }

  /** What the value becomes, said of the two values: everything stays where it is and what it is, but an integer
      becomes the float that is that number. */
  predicate BecomesInJson(v: Value, w: Value) {
    match v
    case Null => w == Null
    case Bool(b) => w == Bool(b)
    case Int(n) => w.Float? && w.units == n * UNITS_PER_ONE
    case Float(units) => w == Float(units)
    case Str(s) => w == Str(s)
    case List(items) =>
      w.List? && |w.items| == |items| && forall i | 0 <= i < |items| :: BecomesInJson(items[i], w.items[i])
    case Dict(fields) =>
      w.Dict? && w.fields.Keys == fields.Keys && forall k | k in fields :: BecomesInJson(fields[k], w.fields[k])
  }

  lemma {:induction false} DecodedIff(v: Value, w: Value)
    ensures BecomesInJson(v, w) <==> w == Decoded(v)
  {
    match v
    case List(items) =>
      if w.List? && |w.items| == |items| {
        forall i | 0 <= i < |items| { DecodedIff(items[i], w.items[i]); }
        assert w == Decoded(v) <==> forall i | 0 <= i < |items| :: w.items[i] == Decoded(items[i]);
      }
    case Dict(fields) =>
      if w.Dict? && w.fields.Keys == fields.Keys {
        forall k | k in fields { DecodedIff(fields[k], w.fields[k]); }
        assert w == Decoded(v) <==> forall k | k in fields :: w.fields[k] == Decoded(fields[k]);
      }
    case _ =>
  }

  /** A task that comes back from JSON: nothing changes but empty slices, which are nil, and integers. */
  lemma DecodedTaskKeeps(t: Task)
    ensures var d := DecodedTask(t);
      && d.id == t.id && d.executor == t.executor
      && Elems(d.inputs) == Elems(t.inputs) && d.inputs != Some([])
      && Elems(d.dependencies) == Elems(t.dependencies) && d.dependencies != Some([])
      && BecomesInJson(t.args, d.args)
  {
    DecodedIff(t.args, Decoded(t.args));
  }

  /** No integer anywhere in the value. */
  predicate NoInts(v: Value) {
    match v
    case Int(_) => false
    case List(items) => forall i | 0 <= i < |items| :: NoInts(items[i])
    case Dict(fields) => forall k | k in fields :: NoInts(fields[k])
    case _ => true
  }

  /** A value survives JSON exactly when there is no integer in it. */
  lemma {:induction false} SurvivesIffNoInts(v: Value)
    ensures Decoded(v) == v <==> NoInts(v)
  {
    match v
    case List(items) =>
      forall i | 0 <= i < |items| { SurvivesIffNoInts(items[i]); }
      assert Decoded(v) == v <==> forall i | 0 <= i < |items| :: Decoded(items[i]) == items[i];
    case Dict(fields) =>
      forall k | k in fields { SurvivesIffNoInts(fields[k]); }
      assert Decoded(v) == v <==> forall k | k in fields :: Decoded(fields[k]) == fields[k];
    case _ =>
  }

  /* Hashing */

  /** The value as hashing sees it, which writes the integer zero and the float zero as the same eight bytes. */
  function Hashed(v: Value): Value {
    match v
    case Int(n) => if n == 0 then Float(0) else v
    case List(items) => List(seq(|items|, i requires 0 <= i < |items| => Hashed(items[i])))
    case Dict(fields) => Dict(map k | k in fields :: Hashed(fields[k]))
    case _ => v
  }

  predicate Zero(v: Value) {
    v == Int(0) || v == Float(0)
  }

  /** Hashing cannot tell the values apart: they are the same but for zeros that are integers or floats. */
  predicate HashAlike(a: Value, b: Value) {
    || (Zero(a) && Zero(b))
    || match a
       case List(items) =>
         b.List? && |b.items| == |items| && forall i | 0 <= i < |items| :: HashAlike(items[i], b.items[i])
       case Dict(fields) =>
         b.Dict? && b.fields.Keys == fields.Keys && forall k | k in fields :: HashAlike(fields[k], b.fields[k])
       case _ => a == b
  }

  lemma HashedLists(xs: seq<Value>, ys: seq<Value>)
    ensures Hashed(List(xs)) == Hashed(List(ys)) <==>
      |xs| == |ys| && forall i | 0 <= i < |xs| :: Hashed(xs[i]) == Hashed(ys[i])
  {
    var a, b := Hashed(List(xs)).items, Hashed(List(ys)).items;
    assert |a| == |xs| && |b| == |ys|;
    assert forall i | 0 <= i < |xs| :: a[i] == Hashed(xs[i]);
    assert forall i | 0 <= i < |ys| :: b[i] == Hashed(ys[i]);
    assert a == b <==> |a| == |b| && forall i | 0 <= i < |a| :: a[i] == b[i];
  }

  lemma HashedDicts(xs: map<string, Value>, ys: map<string, Value>)
    ensures Hashed(Dict(xs)) == Hashed(Dict(ys)) <==>
      xs.Keys == ys.Keys && forall k | k in xs :: Hashed(xs[k]) == Hashed(ys[k])
  {
    var a, b := Hashed(Dict(xs)).fields, Hashed(Dict(ys)).fields;
    assert a.Keys == xs.Keys && b.Keys == ys.Keys;
    assert forall k | k in xs :: a[k] == Hashed(xs[k]);
    assert forall k | k in ys :: b[k] == Hashed(ys[k]);
    assert a == b <==> a.Keys == b.Keys && forall k | k in a :: a[k] == b[k];
  }

  lemma {:induction false} HashedIff(a: Value, b: Value)
    ensures Hashed(a) == Hashed(b) <==> HashAlike(a, b)
  {
    match a
    case List(items) =>
      if b.List? && |b.items| == |items| {
        forall i | 0 <= i < |items| { HashedIff(items[i], b.items[i]); }
      }
      if b.List? { HashedLists(items, b.items); }
    case Dict(fields) =>
      if b.Dict? && b.fields.Keys == fields.Keys {
        forall k | k in fields { HashedIff(fields[k], b.fields[k]); }
      }
      if b.Dict? { HashedDicts(fields, b.fields); }
    case _ =>
  }

  /** No integer anywhere in the value but zero. */
  predicate OnlyZeroInts(v: Value) {
    match v
    case Int(n) => n == 0
    case List(items) => forall i | 0 <= i < |items| :: OnlyZeroInts(items[i])
    case Dict(fields) => forall k | k in fields :: OnlyZeroInts(fields[k])
    case _ => true
  }

  predicate HashSurvives(v: Value) {
    Hashed(Decoded(v)) == Hashed(v)
  }

  lemma ListSurvivesIff(items: seq<Value>)
    ensures HashSurvives(List(items)) <==> forall i | 0 <= i < |items| :: HashSurvives(items[i])
  {
    var h, d := Hashed(List(items)).items, Hashed(Decoded(List(items))).items;
    assert |h| == |d| == |items|;
    assert forall i | 0 <= i < |items| :: h[i] == Hashed(items[i]) && d[i] == Hashed(Decoded(items[i]));
    assert h == d <==> forall i | 0 <= i < |items| :: h[i] == d[i];
  }

  lemma DictSurvivesIff(fields: map<string, Value>)
    ensures HashSurvives(Dict(fields)) <==> forall k | k in fields :: HashSurvives(fields[k])
  {
    var h, d := Hashed(Dict(fields)).fields, Hashed(Decoded(Dict(fields))).fields;
    assert h.Keys == d.Keys == fields.Keys;
    assert forall k | k in fields :: h[k] == Hashed(fields[k]) && d[k] == Hashed(Decoded(fields[k]));
    assert h == d <==> forall k | k in fields :: h[k] == d[k];
  }

  /** Hashing sees no difference after JSON exactly when there is no integer but zero. */
  lemma {:induction false} HashSurvivesIff(v: Value)
    ensures HashSurvives(v) <==> OnlyZeroInts(v)
  {
    match v
    case List(items) =>
      forall i | 0 <= i < |items| { HashSurvivesIff(items[i]); }
      ListSurvivesIff(items);
    case Dict(fields) =>
      forall k | k in fields { HashSurvivesIff(fields[k]); }
      DictSurvivesIff(fields);
    case _ =>
  }

  /** A list of tasks as hashing sees it: nil and empty slices hash alike too. */
  function AsHashed(ts: seq<Task>): seq<Task> {
    seq(|ts|, i requires 0 <= i < |ts| =>
      ts[i].(inputs := OmitEmpty(ts[i].inputs), dependencies := OmitEmpty(ts[i].dependencies),
             args := Hashed(ts[i].args)))
  }

  /** Hashing cannot tell the tasks apart. */
  predicate TasksAlike(t: Task, u: Task) {
    && t.id == u.id && t.executor == u.executor
    && Elems(t.inputs) == Elems(u.inputs) && Elems(t.dependencies) == Elems(u.dependencies)
    && HashAlike(t.args, u.args)
  }

  /** Nor lists of tasks, exactly when they are alike one by one. */
  lemma AsHashedIff(f: seq<Task>, g: seq<Task>)
    ensures AsHashed(f) == AsHashed(g) <==> |f| == |g| && forall i | 0 <= i < |f| :: TasksAlike(f[i], g[i])
  {
    var a, b := AsHashed(f), AsHashed(g);
    assert |a| == |f| && |b| == |g|;
    if |f| == |g| {
      forall i | 0 <= i < |f| ensures a[i] == b[i] <==> TasksAlike(f[i], g[i]) {
        HashedIff(f[i].args, g[i].args);
      }
      assert a == b <==> forall i | 0 <= i < |f| :: a[i] == b[i];
    }
  }

  /** The result of a task, which executors append to. */
  class Result {
    var outputs: seq<string>
    var followups: seq<Task>

    constructor ()
      ensures outputs == [] && followups == []
    {
      outputs, followups := [], [];
    }

    method AddOutputs(more: seq<string>)
      modifies this
      ensures outputs == old(outputs) + more && followups == old(followups)
    {
      outputs := outputs + more;
    }

    /** Copies the followups there are and appends the new ones one by one. */
    method AddFollowupTasks(tasks: seq<Task>)
      modifies this
      ensures followups == old(followups) + tasks && outputs == old(outputs)
    {
      var longer := followups;
      for i := 0 to |tasks|
        invariant longer == followups + tasks[..i]
        invariant followups == old(followups) && outputs == old(outputs)
      {
        longer := longer + [tasks[i]];
      }
      followups := longer;
      assert tasks[..|tasks|] == tasks;
    }

    /** Appending a result to itself, or nothing, changes nothing. */
    method Append(other: Result?)
      modifies this
      ensures outputs == if other == null || other == this then old(outputs) else old(outputs) + other.outputs
      ensures followups == if other == null || other == this then old(followups) else old(followups) + other.followups
    {
      if other == null || other == this { return; }
      outputs := outputs + other.outputs;
      followups := followups + other.followups;
    }
  }
}
