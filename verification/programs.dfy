// User programs as the queue-native runtime sees them, and the direct recursive
// evaluator that the distributed execution is compared with.
module Programs {
  import opened Wrappers

  // Payloads, callback states and error objects are never inspected by the runtime.
  type Value(==, !new)
  type Error(==, !new)
  type Name = string

  /** What a child delivers into its slot: `payload` or `{error}` (fn.js:382). */
  datatype Result = Ok(value: Value) | Err(error: Failure)

  datatype Failure = Thrown(error: Error) | UnknownFunction(fn: Name)

  datatype Task = Task(fn: Name, payload: Value)

  /** What one handler or callback call does before it hands control back. */
  datatype Outcome =
    | Return(value: Value)
    | Throw(error: Error)
    | Next(fn: Name, payload: Value)
    | RunAll(tasks: seq<Task>, callback: Name, state: Value)

  datatype Program = Program(
    known: set<Name>,
    handler: (Name, Value) -> Outcome,
    callback: (Name, Name, seq<Result>, Value) -> Outcome)
  {
    predicate Accepts(o: Outcome) {
      o.RunAll? ==> o.tasks != [] && forall i :: 0 <= i < |o.tasks| ==> o.tasks[i].fn in known
    }

    /** Every `runAll` lists at least one task and names deployed functions only. */
    ghost predicate WellFormed() {
      && (forall fn, v :: Accepts(handler(fn, v)))
      && (forall fn, name, rs, st :: Accepts(callback(fn, name, rs, st)))
    }
  }

  /** A finished evaluation: the result, and how many messages the runtime consumes to get it. */
  datatype Done = Done(res: Result, cost: nat)

  // ---- The recursive evaluator ----

  /** Calls `fn` on `v` and follows everything it asks for, at most `fuel` calls deep. */
  function Eval(p: Program, fuel: nat, fn: Name, v: Value): Option<Done>
    decreases fuel, 0, 0
  {
    if fuel == 0 then None
    else
      match EvalOutcome(p, fuel - 1, fn, p.handler(fn, v))
      case None => None
      case Some(d) => Some(Done(d.res, d.cost + 1))
  }

  function EvalTasks(p: Program, fuel: nat, tasks: seq<Task>): Option<seq<Done>>
    decreases fuel, 1, |tasks|
  {
    if tasks == [] then Some([])
    else
      match EvalTasks(p, fuel, tasks[..|tasks| - 1])
      case None => None
      case Some(ds) =>
        match Eval(p, fuel, tasks[|tasks| - 1].fn, tasks[|tasks| - 1].payload)
        case None => None
        case Some(d) => Some(ds + [d])
  }

  function EvalOutcome(p: Program, fuel: nat, fn: Name, o: Outcome): Option<Done>
    decreases fuel, 2, 0
  {
    match o
    case Return(v) => Some(Done(Ok(v), 0))
    case Throw(e) => Some(Done(Err(Thrown(e)), 0))
    case Next(g, w) =>
      if g in p.known then Eval(p, fuel, g, w) else Some(Done(Err(UnknownFunction(g)), 0))
    case RunAll(tasks, name, st) =>
      if fuel == 0 then None
      else
        match EvalTasks(p, fuel, tasks)
        case None => None
        case Some(ds) =>
          match EvalOutcome(p, fuel - 1, fn, p.callback(fn, name, Results(ds), st))
          case None => None
          case Some(d) => Some(Done(d.res, d.cost + Cost(ds)))
  }

  function Results(ds: seq<Done>): (rs: seq<Result>)
    ensures |rs| == |ds|
  {
    seq(|ds|, i requires 0 <= i < |ds| => ds[i].res)
  }

  /** Children cost their own messages and one reply each. */
  function Cost(ds: seq<Done>): nat {
    if ds == [] then 0 else Cost(ds[..|ds| - 1]) + ds[|ds| - 1].cost + 1
  }

  // ---- More fuel never changes an answer ----

  lemma {:induction false} EvalMonotone(p: Program, fuel: nat, more: nat, fn: Name, v: Value)
    requires fuel <= more && Eval(p, fuel, fn, v).Some?
    ensures Eval(p, more, fn, v) == Eval(p, fuel, fn, v)
    decreases fuel, 0, 0
  {
    EvalOutcomeMonotone(p, fuel - 1, more - 1, fn, p.handler(fn, v));
  }

  lemma {:induction false} EvalTasksMonotone(p: Program, fuel: nat, more: nat, tasks: seq<Task>)
    requires fuel <= more && EvalTasks(p, fuel, tasks).Some?
    ensures EvalTasks(p, more, tasks) == EvalTasks(p, fuel, tasks)
    decreases fuel, 1, |tasks|
  {
    if tasks != [] {
      EvalTasksMonotone(p, fuel, more, tasks[..|tasks| - 1]);
      EvalMonotone(p, fuel, more, tasks[|tasks| - 1].fn, tasks[|tasks| - 1].payload);
    }
  }

  lemma {:induction false} EvalOutcomeMonotone(p: Program, fuel: nat, more: nat, fn: Name, o: Outcome)
    requires fuel <= more && EvalOutcome(p, fuel, fn, o).Some?
    ensures EvalOutcome(p, more, fn, o) == EvalOutcome(p, fuel, fn, o)
    decreases fuel, 2, 0
  {
    match o
    case Return(_) =>
    case Throw(_) =>
    case Next(g, w) =>
      if g in p.known { EvalMonotone(p, fuel, more, g, w); }
    case RunAll(tasks, name, st) =>
      EvalTasksMonotone(p, fuel, more, tasks);
      var rs := Results(EvalTasks(p, fuel, tasks).value);
      EvalOutcomeMonotone(p, fuel - 1, more - 1, fn, p.callback(fn, name, rs, st));
  }

  // ---- The fuel-free meaning of calls and outcomes ----

  /** The meaning of a call, `None` when the call tree is infinite. */
  ghost function Den(p: Program, fn: Name, v: Value): Option<Done> {
    if exists fuel: nat :: Eval(p, fuel, fn, v).Some?
    then var fuel: nat :| Eval(p, fuel, fn, v).Some?; Eval(p, fuel, fn, v)
    else None
  }

  ghost function DenOutcome(p: Program, fn: Name, o: Outcome): Option<Done> {
    if exists fuel: nat :: EvalOutcome(p, fuel, fn, o).Some?
    then var fuel: nat :| EvalOutcome(p, fuel, fn, o).Some?; EvalOutcome(p, fuel, fn, o)
    else None
  }

  ghost predicate AllDefined(p: Program, tasks: seq<Task>) {
    forall i :: 0 <= i < |tasks| ==> Den(p, tasks[i].fn, tasks[i].payload).Some?
  }

  ghost function DenTasks(p: Program, tasks: seq<Task>): (ds: seq<Done>)
    requires AllDefined(p, tasks)
    ensures |ds| == |tasks|
  {
    seq(|tasks|, i requires 0 <= i < |tasks| => Den(p, tasks[i].fn, tasks[i].payload).value)
  }

  lemma EvalIsDen(p: Program, fuel: nat, fn: Name, v: Value)
    requires Eval(p, fuel, fn, v).Some?
    ensures Den(p, fn, v) == Eval(p, fuel, fn, v)
  {
    var other: nat :| Eval(p, other, fn, v).Some? && Den(p, fn, v) == Eval(p, other, fn, v);
    if other <= fuel { EvalMonotone(p, other, fuel, fn, v); } else { EvalMonotone(p, fuel, other, fn, v); }
  }

  lemma EvalOutcomeIsDen(p: Program, fuel: nat, fn: Name, o: Outcome)
    requires EvalOutcome(p, fuel, fn, o).Some?
    ensures DenOutcome(p, fn, o) == EvalOutcome(p, fuel, fn, o)
  {
    var other: nat :| EvalOutcome(p, other, fn, o).Some? && DenOutcome(p, fn, o) == EvalOutcome(p, other, fn, o);
    if other <= fuel { EvalOutcomeMonotone(p, other, fuel, fn, o); } else { EvalOutcomeMonotone(p, fuel, other, fn, o); }
  }

  lemma DenIsEval(p: Program, fn: Name, v: Value) returns (fuel: nat)
    requires Den(p, fn, v).Some?
    ensures Eval(p, fuel, fn, v) == Den(p, fn, v)
  {
    fuel :| Eval(p, fuel, fn, v).Some?;
    EvalIsDen(p, fuel, fn, v);
  }

  lemma DenOutcomeIsEval(p: Program, fn: Name, o: Outcome) returns (fuel: nat)
    requires DenOutcome(p, fn, o).Some?
    ensures EvalOutcome(p, fuel, fn, o) == DenOutcome(p, fn, o)
  {
    fuel :| EvalOutcome(p, fuel, fn, o).Some?;
    EvalOutcomeIsDen(p, fuel, fn, o);
  }

  /** Calling a function means running its handler: one message, then whatever the handler asks for. */
  lemma DenCall(p: Program, fn: Name, v: Value)
    ensures Den(p, fn, v).Some? <==> DenOutcome(p, fn, p.handler(fn, v)).Some?
    ensures Den(p, fn, v).Some? ==>
              var d := DenOutcome(p, fn, p.handler(fn, v)).value;
              Den(p, fn, v).value == Done(d.res, d.cost + 1)
  {
    var o := p.handler(fn, v);
    if Den(p, fn, v).Some? {
      var fuel := DenIsEval(p, fn, v);
      EvalOutcomeIsDen(p, fuel - 1, fn, o);
    } else if DenOutcome(p, fn, o).Some? {
      var fuel := DenOutcomeIsEval(p, fn, o);
      EvalIsDen(p, fuel + 1, fn, v);
    }
  }

  lemma DenFinal(p: Program, fn: Name, o: Outcome)
    requires o.Return? || o.Throw? || (o.Next? && o.fn !in p.known)
    ensures DenOutcome(p, fn, o) ==
              Some(Done(if o.Return? then Ok(o.value)
                        else if o.Throw? then Err(Thrown(o.error)) else Err(UnknownFunction(o.fn)), 0))
  {
    EvalOutcomeIsDen(p, 0, fn, o);
  }

  /** A chained call means the call itself. */
  lemma DenNext(p: Program, fn: Name, o: Outcome)
    requires o.Next? && o.fn in p.known
    ensures DenOutcome(p, fn, o) == Den(p, o.fn, o.payload)
  {
    if DenOutcome(p, fn, o).Some? {
      var fuel := DenOutcomeIsEval(p, fn, o);
      EvalIsDen(p, fuel, o.fn, o.payload);
    } else if Den(p, o.fn, o.payload).Some? {
      var fuel := DenIsEval(p, o.fn, o.payload);
      EvalOutcomeIsDen(p, fuel, fn, o);
    }
  }

  lemma {:induction false} EvalTasksAreDen(p: Program, fuel: nat, tasks: seq<Task>)
    requires EvalTasks(p, fuel, tasks).Some?
    ensures AllDefined(p, tasks) && EvalTasks(p, fuel, tasks) == Some(DenTasks(p, tasks))
    decreases |tasks|
  {
    if tasks != [] {
      var n := |tasks| - 1;
      EvalTasksAreDen(p, fuel, tasks[..n]);
      EvalIsDen(p, fuel, tasks[n].fn, tasks[n].payload);
      forall i | 0 <= i < |tasks| ensures Den(p, tasks[i].fn, tasks[i].payload).Some? {
        if i < n { assert tasks[..n][i] == tasks[i]; }
      }
      assert DenTasks(p, tasks) == DenTasks(p, tasks[..n]) + [Den(p, tasks[n].fn, tasks[n].payload).value];
    }
  }

  lemma {:induction false} EnoughFuel(p: Program, tasks: seq<Task>) returns (fuel: nat)
    requires AllDefined(p, tasks)
    ensures EvalTasks(p, fuel, tasks).Some?
    decreases |tasks|
  {
    fuel := 0;
    if tasks != [] {
      var n := |tasks| - 1;
      forall i | 0 <= i < n ensures Den(p, tasks[..n][i].fn, tasks[..n][i].payload).Some? {
        assert tasks[..n][i] == tasks[i];
      }
      var f0 := EnoughFuel(p, tasks[..n]);
      var f1 := DenIsEval(p, tasks[n].fn, tasks[n].payload);
      fuel := f0 + f1;
      EvalTasksMonotone(p, f0, fuel, tasks[..n]);
      EvalMonotone(p, f1, fuel, tasks[n].fn, tasks[n].payload);
    }
  }

  /** The outcome of the callback of a fan-out all of whose children have a meaning. */
  ghost function Resumed(p: Program, fn: Name, o: Outcome): Outcome
    requires o.RunAll? && AllDefined(p, o.tasks)
  {
    p.callback(fn, o.callback, Results(DenTasks(p, o.tasks)), o.state)
  }

  /** A fan-out means its callback on the children's results, each in its own slot. */
  lemma DenRunAll(p: Program, fn: Name, o: Outcome)
    requires o.RunAll?
    ensures DenOutcome(p, fn, o).Some? <==>
              AllDefined(p, o.tasks) && DenOutcome(p, fn, Resumed(p, fn, o)).Some?
    ensures DenOutcome(p, fn, o).Some? ==>
              var d := DenOutcome(p, fn, Resumed(p, fn, o)).value;
              DenOutcome(p, fn, o).value == Done(d.res, d.cost + Cost(DenTasks(p, o.tasks)))
  {
    if DenOutcome(p, fn, o).Some? {
      var fuel := DenOutcomeIsEval(p, fn, o);
      EvalTasksAreDen(p, fuel, o.tasks);
      EvalOutcomeIsDen(p, fuel - 1, fn, Resumed(p, fn, o));
    }
    if AllDefined(p, o.tasks) && DenOutcome(p, fn, Resumed(p, fn, o)).Some? {
      var f0 := EnoughFuel(p, o.tasks);
      EvalTasksAreDen(p, f0, o.tasks);
      var f1 := DenOutcomeIsEval(p, fn, Resumed(p, fn, o));
      var fuel := f0 + f1 + 1;
      EvalTasksMonotone(p, f0, fuel, o.tasks);
      EvalOutcomeMonotone(p, f1, fuel - 1, fn, Resumed(p, fn, o));
      EvalOutcomeIsDen(p, fuel, fn, o);
    }
  }
}
