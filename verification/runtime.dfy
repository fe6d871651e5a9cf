// The queue-native runtime as a step system: bags of messages and live invocations.
// One handler start, or one poll iteration, is one atomic step.
module Runtime {
  import opened Wrappers
  import opened Programs
  import opened Contexts

  /** A live invocation waiting in `waitForPendingCallbacks` for its one active batch.
      `born` is its `startedAt`; `tasks` are the tasks it dispatched, kept for the proofs. */
  datatype Context = Context(
    env: Envelope,
    runCounter: nat,
    batchCounter: nat,
    number: nat,
    batch: Batch,
    born: nat,
    tasks: seq<Task>)

  datatype Token =
    | Invoke(env: Envelope)
    | Live(ctx: Context)
    | Reply(from: Id, slot: Slot, res: Result)

  /** Messages are numbered as they are sent; a live invocation is known by its id. */
  datatype Key = Msg(n: nat) | Inv(id: Id)

  datatype Event = RunCompleted(value: Value) | RunFailed(error: Failure)

  /** `clock` numbers messages, fresh UUIDs and start times. The last four fields are history:
      messages consumed, invocation ids ever issued, batches opened, and batches whose callback has run. */
  datatype Config = Config(
    pool: map<Key, Token>,
    events: seq<Event>,
    clock: nat,
    consumed: nat,
    issued: seq<Id>,
    begun: seq<(Id, nat)>,
    fired: seq<(Id, nat)>)

  function Init(root: Task): Config {
    Config(map[Msg(0) := Invoke(Envelope(Uuid(0), root.fn, root.payload, None))], [], 1, 0, [Uuid(0)], [], [])
  }

  // ---- index.js: handing on what a handler or callback produced ----

  /** Final result or error: a reply into the slot, or the terminal event of the run. */
  function Complete(c: Config, env: Envelope, r: Result): Config {
    match env.ret
    case None => c.(events := c.events + [if r.Ok? then RunCompleted(r.value) else RunFailed(r.error)])
    case Some(slot) => c.(pool := c.pool[Msg(c.clock) := Reply(env.id, slot, r)], clock := c.clock + 1)
  }

  /** `next`: the successor gets a fresh id and inherits the slot. */
  function Chain(c: Config, env: Envelope, fn: Name, payload: Value): Config {
    c.(pool := c.pool[Msg(c.clock) := Invoke(Envelope(Uuid(c.clock), fn, payload, env.ret))],
       clock := c.clock + 1,
       issued := c.issued + [Uuid(c.clock)])
  }

  /** The first `n` invitations of a fan-out. */
  function Children(env: Envelope, number: nat, ids: seq<Id>, tasks: seq<Task>, clock: nat, n: nat): (m: map<Key, Token>)
    requires n <= |tasks| == |ids|
    ensures forall k: Key :: k in m <==> k.Msg? && clock <= k.n < clock + n
    ensures forall k: Key :: k in m ==> m[k] == Invoke(ChildEnvelope(env.id, number, ids, tasks, k.n - clock))
  {
    if n == 0 then map[]
    else Children(env, number, ids, tasks, clock, n - 1)
           [Msg(clock + n - 1) := Invoke(ChildEnvelope(env.id, number, ids, tasks, n - 1))]
  }

  /** `runAll` of a non-empty task list in a crash-free invocation: nothing is cached. */
  function FanOut(c: Config, env: Envelope, runCounter: nat, batchCounter: nat, born: nat, o: Outcome): Config
    requires o.RunAll?
  {
    var n := |o.tasks|;
    var batch := OpenBatch(env.id, runCounter, n, o.callback, o.state, map[]);
    var ctx := Context(env, runCounter + n, batchCounter + 1, batchCounter, batch, born, o.tasks);
    c.(pool := c.pool[Inv(env.id) := Live(ctx)] + Children(env, batchCounter, batch.childIds, o.tasks, c.clock, n),
       clock := c.clock + n,
       issued := c.issued + batch.childIds,
       begun := c.begun + [(env.id, batchCounter)])
  }

  function Settle(p: Program, c: Config, env: Envelope, runCounter: nat, batchCounter: nat, born: nat, o: Outcome): Config {
    match o
    case Return(v) => Complete(c, env, Ok(v))
    case Throw(e) => Complete(c, env, Err(Thrown(e)))
    case Next(g, w) => if g in p.known then Chain(c, env, g, w) else Complete(c, env, Err(UnknownFunction(g)))
    case RunAll(_, _, _) => FanOut(c, env, runCounter, batchCounter, born, o)
  }

  // ---- The steps ----

  predicate CanStart(c: Config, k: Key) {
    k in c.pool && c.pool[k].Invoke?
  }

  /** An invoke message is delivered and the handler runs up to its outcome. */
  function Start(p: Program, c: Config, k: Key): Config
    requires CanStart(c, k)
  {
    var env := c.pool[k].env;
    var c' := c.(pool := c.pool - {k}, clock := c.clock + 1, consumed := c.consumed + 1);
    Settle(p, c', env, 0, 0, c.clock, p.handler(env.fn, env.payload))
  }

  /** `k` is a reply in the inbox of a live invocation whose active batch it names. */
  predicate CanDeliver(c: Config, k: Key) {
    && k in c.pool && c.pool[k].Reply?
    && var slot := c.pool[k].slot;
    && Inv(slot.owner) in c.pool && c.pool[Inv(slot.owner)].Live?
    && var ctx := c.pool[Inv(slot.owner)].ctx;
    && slot.batch == ctx.number
    && slot.idx < |ctx.batch.results|
  }

  /** Delete and record one reply; at zero pending the batch closes and its callback runs. */
  function Deliver(p: Program, c: Config, k: Key): Config
    requires CanDeliver(c, k)
  {
    var slot := c.pool[k].slot;
    var owner := Inv(slot.owner);
    var ctx := c.pool[owner].ctx;
    var batch := Record(ctx.batch, slot.idx, c.pool[k].res);
    var c' := c.(pool := c.pool - {k}, consumed := c.consumed + 1);
    if batch.pending == 0 && forall i :: 0 <= i < |batch.results| ==> batch.results[i].Some? then
      Settle(p, c'.(pool := c'.pool - {owner}, fired := c'.fired + [(slot.owner, ctx.number)]), ctx.env, ctx.runCounter, ctx.batchCounter, ctx.born,
             p.callback(ctx.env.fn, batch.callback, Filled(batch.results), batch.state))
    else
      c'.(pool := c'.pool[owner := Live(ctx.(batch := batch))])
  }

  /** One poll iteration receives up to ten messages of one inbox; those that do not match
      the active batch are put back. */
  predicate CanPoll(c: Config, id: Id, ks: seq<Key>) {
    && 0 < |ks| <= 10
    && (forall i, j :: 0 <= i < j < |ks| ==> ks[i] != ks[j])
    && (forall i :: 0 <= i < |ks| ==> ks[i] in c.pool && c.pool[ks[i]].Reply? && c.pool[ks[i]].slot.owner == id)
  }

  function Poll(p: Program, c: Config, ks: seq<Key>): Config
    decreases |ks|
  {
    if ks == [] then c
    else Poll(p, if CanDeliver(c, ks[0]) then Deliver(p, c, ks[0]) else c, ks[1..])
  }

  ghost predicate Starts(p: Program, c: Config, k: Key, c': Config) {
    CanStart(c, k) && c' == Start(p, c, k)
  }

  ghost predicate Polls(p: Program, c: Config, id: Id, ks: seq<Key>, c': Config) {
    CanPoll(c, id, ks) && c' == Poll(p, c, ks)
  }

  ghost predicate Step(p: Program, c: Config, c': Config) {
    || (exists k :: Starts(p, c, k, c'))
    || (exists id, ks :: Polls(p, c, id, ks, c'))
  }

  ghost predicate StepTo(p: Program, cs: seq<Config>, i: nat)
    requires 0 < i < |cs|
  {
    Step(p, cs[i - 1], cs[i])
  }

  ghost predicate IsRun(p: Program, root: Task, cs: seq<Config>) {
    && cs != [] && cs[0] == Init(root)
    && forall i :: 0 < i < |cs| ==> StepTo(p, cs, i)
  }

  ghost predicate Reachable(p: Program, root: Task, c: Config) {
    exists cs :: IsRun(p, root, cs) && cs[|cs| - 1] == c
  }
}
