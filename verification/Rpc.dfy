/** Calling an executor across gRPC (pkg/executor/rpc): the client encodes the task, the server rebuilds and
    executes it, and the client rebuilds the result. */
module Rpc {
  import opened Options
  import opened Tasks

  /** A protobuf value. */
  datatype Proto =
    | NullValue
    | BoolValue(b: bool)
    | NumberValue(units: int)
    | StringValue(s: string)
    | ListValue(values: seq<Proto>)
    | StructValue(fields: map<string, Proto>)

  /** Encoding panics on a nil inside a list or a map: reflection has no type for it. */
  datatype Encoding = Encoded(proto: Proto) | Panics

  /** `structpb.Value.AsInterface`. */
  function AsInterface(p: Proto): Value {
    match p
    case NullValue => Null
    case BoolValue(b) => Bool(b)
    case NumberValue(units) => Float(units)
    case StringValue(s) => Str(s)
    case ListValue(values) => List(seq(|values|, i requires 0 <= i < |values| => AsInterface(values[i])))
    case StructValue(fields) => Dict(map k | k in fields :: AsInterface(fields[k]))
  }

  /** No nil inside a list or a map. */
  predicate NoInnerNull(v: Value) {
    match v
    case List(items) => forall i | 0 <= i < |items| :: items[i] != Null && NoInnerNull(items[i])
    case Dict(fields) => forall k | k in fields :: fields[k] != Null && NoInnerNull(fields[k])
    case _ => true
  }

  /** A value is somewhere inside another, at any depth. */
  predicate Inside(w: Value, v: Value) {
    match v
    case List(items) => exists i :: 0 <= i < |items| && (items[i] == w || Inside(w, items[i]))
    case Dict(fields) => exists k :: k in fields && (fields[k] == w || Inside(w, fields[k]))
    case _ => false
  }

  lemma {:induction false} NoInnerNullIff(v: Value)
    ensures NoInnerNull(v) <==> !Inside(Null, v)
  {
    match v
    case List(items) => forall i | 0 <= i < |items| { NoInnerNullIff(items[i]); }
    case Dict(fields) => forall k | k in fields { NoInnerNullIff(fields[k]); }
    case _ =>
  }

  /** The protobuf value says what the value is, part by part; integers are sent as the numbers they are. */
  predicate Carries(v: Value, p: Proto) {
    match v
    case Null => p == NullValue
    case Bool(b) => p == BoolValue(b)
    case Int(n) => p.NumberValue? && p.units == n * UNITS_PER_ONE
    case Float(units) => p == NumberValue(units)
    case Str(s) => p == StringValue(s)
    case List(items) =>
      && p.ListValue? && |p.values| == |items|
      && forall i | 0 <= i < |items| :: Carries(items[i], p.values[i])
    case Dict(fields) =>
      && p.StructValue? && p.fields.Keys == fields.Keys
      && forall k | k in fields :: Carries(fields[k], p.fields[k])
  }

  /** What is carried comes out as it comes back from JSON. */
  lemma {:induction false} CarriedBecomes(v: Value, p: Proto)
    requires Carries(v, p)
    ensures BecomesInJson(v, AsInterface(p))
  {
    match v
    case List(items) => forall i | 0 <= i < |items| { CarriedBecomes(items[i], p.values[i]); }
    case Dict(fields) => forall k | k in fields { CarriedBecomes(fields[k], p.fields[k]); }
    case _ =>
  }

  /* proto_conversion.go */

  /** What is encoded carries the value, and comes out as it comes back from JSON; encoding fails exactly when
      there is a nil inside. Element by element, or key by key in any order, the first nil met ends it. */
  method ToProtoValue(value: Value) returns (e: Encoding)
    ensures e.Encoded? <==> NoInnerNull(value)
    ensures e.Encoded? ==> Carries(value, e.proto) && BecomesInJson(value, AsInterface(e.proto))
    ensures e.Encoded? ==> AsInterface(e.proto) == Decoded(value)
    decreases value, 2
  {
    if value == Null { return Encoded(NullValue); }
    e := ToProtoInner(value);
    if e.Encoded? {
      CarriedBecomes(value, e.proto);
      DecodedIff(value, AsInterface(e.proto));
    }
  }

  method ToProtoInner(value: Value) returns (e: Encoding)
    ensures e.Encoded? <==> value != Null && NoInnerNull(value)
    ensures e.Encoded? ==> Carries(value, e.proto)
    decreases value, 1
  {
    match value
    case Null => e := Panics;
    case Bool(b) => e := Encoded(BoolValue(b));
    case Int(n) => e := Encoded(NumberValue(n * UNITS_PER_ONE));
    case Float(units) => e := Encoded(NumberValue(units));
    case Str(s) => e := Encoded(StringValue(s));
    case List(_) => e := ToProtoList(value);
    case Dict(_) => e := ToProtoStruct(value);
  }

  method ToProtoList(value: Value) returns (e: Encoding)
    requires value.List?
    ensures e.Encoded? <==> NoInnerNull(value)
    ensures e.Encoded? ==> Carries(value, e.proto)
    decreases value, 0
  {
    var items := value.items;
    var values := [];
    for i := 0 to |items|
      invariant |values| == i
      invariant forall j | 0 <= j < i :: items[j] != Null && NoInnerNull(items[j])
      invariant forall j | 0 <= j < i :: Carries(items[j], values[j])
    {
      var item := ToProtoInner(items[i]);
      if item.Panics? { return Panics; }
      values := values + [item.proto];
    }
    e := Encoded(ListValue(values));
  }

  method ToProtoStruct(value: Value) returns (e: Encoding)
    requires value.Dict?
    ensures e.Encoded? <==> NoInnerNull(value)
    ensures e.Encoded? ==> Carries(value, e.proto)
    decreases value, 0
  {
    var fields := value.fields;
    var encoded: map<string, Proto> := map[];
    var todo := fields.Keys;
    while todo != {}
      invariant todo <= fields.Keys && encoded.Keys == fields.Keys - todo
      invariant forall k | k in encoded :: fields[k] != Null && NoInnerNull(fields[k])
      invariant forall k | k in encoded :: Carries(fields[k], encoded[k])
      decreases todo
    {
      var k :| k in todo;
      var field := ToProtoInner(fields[k]);
      if field.Panics? { return Panics; }
      encoded := encoded[k := field.proto];
      todo := todo - {k};
    }
    e := Encoded(StructValue(encoded));
  }

  /* Requests and replies */

  datatype Request = Request(session: string, id: string, executor: string, inputs: seq<string>, arguments: Proto)
  datatype FollowupProto = FollowupProto(id: string, executor: string, inputs: seq<string>, arguments: Proto)
  datatype Code = InvalidArgument | Unknown | ExecErr
  datatype Reply =
    | Response(output: seq<string>, followups: seq<FollowupProto>)
    | Failure(code: Code, message: string)
    | Crash

  /** What the executor behind the server returns for a task. */
  datatype Executed = Executed(error: Option<string>, outputs: seq<string>, followups: seq<Task>)

  /** A repeated field comes out nil when nothing was put in. */
  function Received(xs: seq<string>): Slice {
    if xs == [] then None else Some(xs)
  }

  /** What is left of a task on the other side: dependencies are dropped, empty inputs become nil, and the
      arguments come back as through JSON. */
  function Arrived(t: Task): Task {
    Task(t.id, t.executor, Received(Elems(t.inputs)), None, Decoded(t.args))
  }

  function ArrivedAll(ts: seq<Task>): seq<Task> {
    seq(|ts|, i requires 0 <= i < |ts| => Arrived(ts[i]))
  }

  function Rebuilt(f: FollowupProto): Task {
    Task(f.id, f.executor, Received(f.inputs), None, AsInterface(f.arguments))
  }

  predicate Sendable(ts: seq<Task>) {
    forall t | t in ts :: NoInnerNull(t.args)
  }

  class Server {
    var sessions: set<string>

    /** `grpcServer.ExecuteTask`. */
    method ExecuteTask(req: Request, mkdirFails: bool, executor: Task -> Executed) returns (reply: Reply)
      ensures var tsk := Task(req.id, req.executor, Received(req.inputs), None, AsInterface(req.arguments));
        var done := executor(tsk);
        && (req.session !in sessions ==> reply.Failure? && reply.code == InvalidArgument)
        && (req.session in sessions ==>
          && (mkdirFails ==> reply.Failure? && reply.code == Unknown)
          && (!mkdirFails && done.error.Some? ==> reply == Failure(ExecErr, done.error.value))
          && (!mkdirFails && done.error.None? && !Sendable(done.followups) ==> reply == Crash)
          && (!mkdirFails && done.error.None? && Sendable(done.followups) ==>
            && reply.Response? && reply.output == done.outputs
            && |reply.followups| == |done.followups|
            && forall i | 0 <= i < |done.followups| :: Rebuilt(reply.followups[i]) == Arrived(done.followups[i])))
    {
      if req.session !in sessions { return Failure(InvalidArgument, "unopened session id: " + req.session); }
      var tsk := Task(req.id, req.executor, Received(req.inputs), None, AsInterface(req.arguments));
      if mkdirFails { return Failure(Unknown, "failed to create output directory"); }
      var done := executor(tsk);
      if done.error.Some? { return Failure(ExecErr, done.error.value); }

      var followups := [];
      for i := 0 to |done.followups|
        invariant |followups| == i
        invariant forall j | 0 <= j < i :: NoInnerNull(done.followups[j].args)
        invariant forall j | 0 <= j < i :: Rebuilt(followups[j]) == Arrived(done.followups[j])
      {
        var followup := done.followups[i];
        var arguments := ToProtoValue(followup.args);
        if arguments.Panics? {
          assert followup in done.followups;
          return Crash;
        }
        var proto := FollowupProto(followup.id, followup.executor, Elems(followup.inputs), arguments.proto);
        followups := followups + [proto];
      }
      return Response(done.outputs, followups);
    }
  }

  /** How a call ends for the client: with an error or not, or not at all. */
  datatype Ending = Returned(error: Option<string>) | Panicked

  /** What a result holds: its outputs and its followups. */
  type Held = (seq<string>, seq<Task>)

  /** How a call ends, and what the result holds after it, given what the executor did with the task that
      arrived; `served` is whether the server had the session and could make the task's directory. */
  predicate Delivers(ending: Ending, served: bool, done: Executed, before: Held, after: Held) {
    && (ending.Returned? && served && done.error.Some? ==> ending.error == done.error)
    && if ending.Returned? && served && done.error.None? && Sendable(done.followups) then
         ending.error == None && after == (before.0 + done.outputs, before.1 + ArrivedAll(done.followups))
       else
         && after == before
         && (ending.Returned? ==> ending.error.Some?)
         && (ending.Returned? && !(served && done.error.Some?) ==>
               "unknown error performing task: " <= ending.error.value)
  }

  /** `grpcClient.Execute`, with the server on the other end of the connection. A crashing server is an
      unknown error to the client. */
  method Execute(server: Server, session: string, mkdirFails: bool, executor: Task -> Executed, tsk: Task,
                 result: Result)
    returns (ending: Ending)
    modifies result
    ensures ending.Panicked? <==> !NoInnerNull(tsk.args)
    ensures Delivers(ending, session in server.sessions && !mkdirFails, executor(Arrived(tsk)),
                     old((result.outputs, result.followups)), (result.outputs, result.followups))
  {
    var arguments := ToProtoValue(tsk.args);
    if arguments.Panics? { return Panicked; }
    var req := Request(session, tsk.id, tsk.executor, Elems(tsk.inputs), arguments.proto);
    var reply := server.ExecuteTask(req, mkdirFails, executor);
    match reply
    case Failure(code, message) =>
      return Returned(Some(if code == ExecErr then message else "unknown error performing task: " + message));
    case Crash =>
      return Returned(Some("unknown error performing task: connection lost"));
    case Response(output, protos) =>
      result.AddOutputs(output);
      var followups := [];
      for i := 0 to |protos|
        invariant |followups| == i
        invariant forall j | 0 <= j < i :: followups[j] == Rebuilt(protos[j])
        invariant result.outputs == old(result.outputs) + output && result.followups == old(result.followups)
      {
        followups := followups + [Rebuilt(protos[i])];
      }
      assert followups == ArrivedAll(executor(Arrived(tsk)).followups);
      result.AddFollowupTasks(followups);
      return Returned(None);
  }

  /* What crosses unchanged */

  /** What the other side makes of a task: the same ID, executor and input patterns, no dependencies, and the
      arguments as they come back from JSON. */
  lemma ArrivedKeeps(t: Task)
    ensures var u := Arrived(t);
      && u.id == t.id && u.executor == t.executor
      && Elems(u.inputs) == Elems(t.inputs) && u.inputs != Some([])
      && u.dependencies == None
      && BecomesInJson(t.args, u.args)
  {
    DecodedIff(t.args, Decoded(t.args));
  }

  /** And of followups: each of them, in order. */
  lemma ArrivedAllKeep(ts: seq<Task>)
    ensures var us := ArrivedAll(ts); |us| == |ts| && forall i | 0 <= i < |ts| :: us[i] == Arrived(ts[i])
  {}

  /** A task crosses unchanged exactly when its inputs are nil or not empty, it has no dependencies, and
      there is no integer in its arguments. */
  lemma CrossesIff(t: Task)
    ensures Arrived(t) == t <==> t.inputs != Some([]) && t.dependencies == None && NoInts(t.args)
  {
    SurvivesIffNoInts(t.args);
  }

  lemma {:induction false} DecodedHasNoInts(v: Value)
    ensures NoInts(Decoded(v))
  {
    match v
    case List(items) => forall i | 0 <= i < |items| { DecodedHasNoInts(items[i]); }
    case Dict(fields) => forall k | k in fields { DecodedHasNoInts(fields[k]); }
    case _ =>
  }

  /** Crossing twice is crossing once. */
  lemma ArrivedIsStable(t: Task)
    ensures Arrived(Arrived(t)) == Arrived(t) == DecodedTask(Arrived(t))
  {
    DecodedHasNoInts(t.args);
    SurvivesIffNoInts(Decoded(t.args));
  }

  /** Followups that come from another process survive JSON: the state checker replays them as they are. */
  lemma ArrivedAllSurviveJson(ts: seq<Task>)
    ensures DecodedTasks(ArrivedAll(ts)) == ArrivedAll(ts)
  {
    forall i | 0 <= i < |ts| { ArrivedIsStable(ts[i]); }
  }
}
