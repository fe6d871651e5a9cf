// Distributed execution refines recursive evaluation: whatever carries a slot means what the
// slot was asked for, so the answer of the root is the evaluator's.
module RuntimeRefinement {
  import opened Wrappers
  import opened Programs
  import opened Contexts
  import opened Runtime
  import opened RuntimeInvariants

  function Answer(d: Option<Done>): Option<Result> {
    if d.Some? then Some(d.value.res) else None
  }

  /** What a waiting parent is in the middle of. */
  function Waiting(ctx: Context): Outcome {
    RunAll(ctx.tasks, ctx.batch.callback, ctx.batch.state)
  }

  ghost function Meaning(p: Program, t: Token): Option<Done> {
    match t
    case Invoke(env) => Den(p, env.fn, env.payload)
    case Live(ctx) => DenOutcome(p, ctx.env.fn, Waiting(ctx))
    case Reply(_, _, r) => Some(Done(r, 0))
  }

  /** The task a slot was created for; `None` is the root's. */
  function Asked(root: Task, pool: Pool, s: Option<Slot>): Task {
    match s
    case None => root
    case Some(slot) =>
      if IsLive(pool, slot.owner) && slot.idx < |pool[Inv(slot.owner)].ctx.tasks|
      then pool[Inv(slot.owner)].ctx.tasks[slot.idx] else root
  }

  ghost predicate Wanted(p: Program, root: Task, pool: Pool, s: Option<Slot>, a: Option<Result>) {
    var task := Asked(root, pool, s);
    a == Answer(Den(p, task.fn, task.payload))
  }

  /** Every slot a context has filled holds the evaluator's answer for its own task. */
  ghost predicate FilledRight(p: Program, ctx: Context) {
    forall i :: 0 <= i < |ctx.batch.results| && i < |ctx.tasks| && ctx.batch.results[i].Some? ==>
      ctx.batch.results[i] == Answer(Den(p, ctx.tasks[i].fn, ctx.tasks[i].payload))
  }

  ghost predicate TokenRight(p: Program, root: Task, pool: Pool, t: Token) {
    && Wanted(p, root, pool, SlotOf(t), Answer(Meaning(p, t)))
    && (t.Live? ==> FilledRight(p, t.ctx))
  }

  function Said(e: Event): Result {
    match e
    case RunCompleted(v) => Ok(v)
    case RunFailed(f) => Err(f)
  }

  // ---- Settling keeps meanings ----

  lemma StaysRight(p: Program, root: Task, pool: Pool, pool2: Pool, t: Token)
    requires TokenRight(p, root, pool, t) && (SlotOf(t).Some? ==> IsLive(pool, SlotOf(t).value.owner))
    requires SlotOf(t).Some? ==>
               var o := SlotOf(t).value.owner;
               IsLive(pool2, o) && pool2[Inv(o)].ctx.tasks == pool[Inv(o)].ctx.tasks
    ensures TokenRight(p, root, pool2, t)
  {
  }

  /** Every token of `pool` has a live owner in `pool`. */
  ghost predicate Housed(pool: Pool) {
    forall k :: k in pool && SlotOf(pool[k]).Some? ==> IsLive(pool, SlotOf(pool[k]).value.owner)
  }

  ghost predicate AllRight(p: Program, root: Task, pool: Pool) {
    forall k {:trigger TokenRight(p, root, pool, pool[k])} :: k in pool ==> TokenRight(p, root, pool, pool[k])
  }

  /** The execution `env`, taken out of `c`, is about to settle with an outcome that means what it was asked. */
  ghost predicate MaySettle(p: Program, root: Task, c: Config, env: Envelope, o: Outcome) {
    && AllRight(p, root, c.pool) && Housed(c.pool)
    && Inv(env.id) !in c.pool
    && (forall k: Key :: k in c.pool && k.Msg? ==> k.n < c.clock)
    && (env.ret.Some? ==> IsLive(c.pool, env.ret.value.owner))
    && Wanted(p, root, c.pool, env.ret, Answer(DenOutcome(p, env.fn, o)))
  }

  lemma AddRight(p: Program, root: Task, pool: Pool, k: Key, t: Token)
    requires AllRight(p, root, pool) && Housed(pool) && k !in pool
    requires TokenRight(p, root, pool, t) && (SlotOf(t).Some? ==> IsLive(pool, SlotOf(t).value.owner))
    ensures AllRight(p, root, pool[k := t])
  {
    var pool2 := pool[k := t];
    forall j | j in pool2 ensures TokenRight(p, root, pool2, pool2[j]) {
      StaysRight(p, root, pool, pool2, pool2[j]);
    }
  }

  lemma RemainRight(p: Program, root: Task, pool: Pool, pool2: Pool)
    requires AllRight(p, root, pool) && Housed(pool)
    requires forall j :: j in pool2 ==> j in pool && pool2[j] == pool[j]
    requires Housed(pool2)
    ensures AllRight(p, root, pool2)
  {
    forall j | j in pool2 ensures TokenRight(p, root, pool2, pool2[j]) {
      StaysRight(p, root, pool, pool2, pool2[j]);
    }
  }

  /** An invitation asks for exactly the task its slot was created for. */
  predicate AsksItsTask(pool: Pool, t: Token) {
    && t.Invoke? && t.env.ret.Some?
    && var slot := t.env.ret.value;
    && IsLive(pool, slot.owner)
    && slot.idx < |pool[Inv(slot.owner)].ctx.tasks|
    && pool[Inv(slot.owner)].ctx.tasks[slot.idx] == Task(t.env.fn, t.env.payload)
  }

  lemma AddChildrenRight(p: Program, root: Task, pool: Pool, kids: Pool)
    requires AllRight(p, root, pool) && Housed(pool)
    requires forall k :: k in kids ==> k !in pool && AsksItsTask(pool, kids[k])
    ensures AllRight(p, root, pool + kids)
  {
    var pool2 := pool + kids;
    forall j | j in pool2 ensures TokenRight(p, root, pool2, pool2[j]) {
      if j in kids {
        assert IsLive(pool2, kids[j].env.ret.value.owner);
      } else {
        StaysRight(p, root, pool, pool2, pool[j]);
      }
    }
  }

  lemma ChildrenAsk(pool: Pool, ctx: Context, clock: nat)
    requires |ctx.tasks| == |ctx.batch.childIds| && Inv(ctx.env.id) in pool && pool[Inv(ctx.env.id)] == Live(ctx)
    ensures var kids := Children(ctx.env, ctx.number, ctx.batch.childIds, ctx.tasks, clock, |ctx.tasks|);
            forall k :: k in kids ==> AsksItsTask(pool, kids[k])
  {
  }

  lemma AddFamilyRight(p: Program, root: Task, pool: Pool, ctx: Context, clock: nat)
    requires AllRight(p, root, pool) && Housed(pool) && Inv(ctx.env.id) !in pool
    requires forall k: Key :: k in pool && k.Msg? ==> k.n < clock
    requires |ctx.tasks| == |ctx.batch.childIds|
    requires TokenRight(p, root, pool, Live(ctx)) && (ctx.env.ret.Some? ==> IsLive(pool, ctx.env.ret.value.owner))
    ensures AllRight(p, root, pool[Inv(ctx.env.id) := Live(ctx)]
                              + Children(ctx.env, ctx.number, ctx.batch.childIds, ctx.tasks, clock, |ctx.tasks|))
  {
    var pool1 := pool[Inv(ctx.env.id) := Live(ctx)];
    AddRight(p, root, pool, Inv(ctx.env.id), Live(ctx));
    ChildrenAsk(pool1, ctx, clock);
    assert Housed(pool1);
    AddChildrenRight(p, root, pool1, Children(ctx.env, ctx.number, ctx.batch.childIds, ctx.tasks, clock, |ctx.tasks|));
  }

  lemma FanOutRight(p: Program, root: Task, c: Config, env: Envelope, runCounter: nat, batchCounter: nat, born: nat, o: Outcome, pool2: Pool)
    requires MaySettle(p, root, c, env, o) && o.RunAll?
    requires pool2 == FanOut(c, env, runCounter, batchCounter, born, o).pool
    ensures AllRight(p, root, pool2)
  {
    var n := |o.tasks|;
    var batch := OpenBatch(env.id, runCounter, n, o.callback, o.state, map[]);
    var ctx := Context(env, runCounter + n, batchCounter + 1, batchCounter, batch, born, o.tasks);
    assert Waiting(ctx) == o;
    assert FilledRight(p, ctx);
    AddFamilyRight(p, root, c.pool, ctx, c.clock);
    FanOutPool(c, env, runCounter, batchCounter, born, o, ctx);
  }

  lemma SettleRight(p: Program, root: Task, c: Config, env: Envelope, runCounter: nat, batchCounter: nat, born: nat, o: Outcome, c2: Config)
    requires MaySettle(p, root, c, env, o)
    requires c2 == Settle(p, c, env, runCounter, batchCounter, born, o)
    ensures AllRight(p, root, c2.pool)
    ensures c2.events == c.events ||
            (|c2.events| == |c.events| + 1
             && Answer(Den(p, root.fn, root.payload)) == Some(Said(c2.events[|c.events|])))
  {
    if o.RunAll? {
      FanOutRight(p, root, c, env, runCounter, batchCounter, born, o, c2.pool);
    } else {
      if o.Next? && o.fn in p.known { DenNext(p, env.fn, o); } else { DenFinal(p, env.fn, o); }
      if Msg(c.clock) in c2.pool {
        AddRight(p, root, c.pool, Msg(c.clock), c2.pool[Msg(c.clock)]);
      }
    }
  }

  // ---- The steps keep meanings ----

  ghost predicate Faithful(p: Program, root: Task, c: Config) {
    && AllRight(p, root, c.pool)
    && (|c.events| == 1 ==> Answer(Den(p, root.fn, root.payload)) == Some(Said(c.events[0])))
  }

  lemma ConservedHoused(c: Config)
    requires Owned(c)
    ensures Housed(c.pool)
  {
    forall k | k in c.pool && SlotOf(c.pool[k]).Some? ensures IsLive(c.pool, SlotOf(c.pool[k]).value.owner) {
      assert OwnedOk(c, k);
    }
  }

  lemma StartMaySettle(p: Program, root: Task, c: Config, k: Key, c1: Config)
    requires KeysOk(c) && IdsUnique(c.pool) && Owned(c) && AllRight(p, root, c.pool) && CanStart(c, k)
    requires c1 == c.(pool := c.pool - {k}, clock := c.clock + 1, consumed := c.consumed + 1)
    ensures MaySettle(p, root, c1, c.pool[k].env, p.handler(c.pool[k].env.fn, c.pool[k].env.payload))
  {
    ConservedHoused(c);
    assert k.Msg?;
    PendingOwnsNothing(c, k);
    var env := c.pool[k].env;
    DenCall(p, env.fn, env.payload);
    assert TokenRight(p, root, c.pool, c.pool[k]);
    assert forall id :: IsLive(c1.pool, id) <==> IsLive(c.pool, id);
    RemainRight(p, root, c.pool, c1.pool);
  }

  lemma StartFaithful(p: Program, root: Task, c: Config, k: Key, c2: Config)
    requires Conserved(c) && Conserved(c2) && Faithful(p, root, c) && CanStart(c, k) && c2 == Start(p, c, k)
    ensures Faithful(p, root, c2)
  {
    var env := c.pool[k].env;
    var c1 := c.(pool := c.pool - {k}, clock := c.clock + 1, consumed := c.consumed + 1);
    StartMaySettle(p, root, c, k, c1);
    StartSettles(p, c, k, c1);
    SettleRight(p, root, c1, env, 0, 0, c.clock, p.handler(env.fn, env.payload), c2);
  }

  lemma RecordFaithful(p: Program, root: Task, c: Config, k: Key, ctx: Context, c2: Config)
    requires Recorded(c.pool, k, ctx, c2.pool) && Faithful(p, root, c) && c2.events == c.events
    requires Housed(c.pool) && |ctx.tasks| == |ctx.batch.results|
    ensures Faithful(p, root, c2)
  {
    var owner := Inv(c.pool[k].slot.owner);
    assert TokenRight(p, root, c.pool, c.pool[owner]) && TokenRight(p, root, c.pool, c.pool[k]);
    assert FilledRight(p, c2.pool[owner].ctx);
    assert forall id :: IsLive(c.pool, id) ==> IsLive(c2.pool, id) && c2.pool[Inv(id)].ctx.tasks == c.pool[Inv(id)].ctx.tasks;
    forall j | j in c2.pool ensures TokenRight(p, root, c2.pool, c2.pool[j]) {
      StaysRight(p, root, c.pool, c2.pool, c.pool[j]);
      assert Meaning(p, c2.pool[j]) == Meaning(p, c.pool[j]);
    }
  }

  /** A full batch holds the evaluator's answers, so the parent's meaning is its callback's. */
  lemma FullBatchMeaning(p: Program, ctx: Context, idx: nat, r: Result)
    requires |ctx.tasks| == |ctx.batch.results| && idx < |ctx.tasks|
    requires FilledRight(p, ctx) && Answer(Den(p, ctx.tasks[idx].fn, ctx.tasks[idx].payload)) == Some(r)
    requires forall i :: 0 <= i < |ctx.batch.results| && i != idx ==> ctx.batch.results[i].Some?
    ensures AllDefined(p, ctx.tasks)
    ensures Filled(Record(ctx.batch, idx, r).results) == Results(DenTasks(p, ctx.tasks))
  {
    forall i | 0 <= i < |ctx.tasks|
      ensures Answer(Den(p, ctx.tasks[i].fn, ctx.tasks[i].payload)) == Record(ctx.batch, idx, r).results[i]
    {
    }
  }

  lemma ClosingMeaning(p: Program, root: Task, c: Config, k: Key, ctx: Context)
    requires AllRight(p, root, c.pool) && k in c.pool && c.pool[k].Reply? && Open(c.pool, c.pool[k].slot)
    requires c.pool[Inv(c.pool[k].slot.owner)] == Live(ctx) && |ctx.tasks| == |ctx.batch.results|
    requires forall i :: 0 <= i < |ctx.batch.results| && i != c.pool[k].slot.idx ==> ctx.batch.results[i].Some?
    ensures Wanted(p, root, c.pool, ctx.env.ret, Answer(DenOutcome(p, ctx.env.fn, ClosingOutcome(p, c, k, ctx))))
  {
    var slot := c.pool[k].slot;
    assert TokenRight(p, root, c.pool, c.pool[Inv(slot.owner)]) && TokenRight(p, root, c.pool, c.pool[k]);
    FullBatchMeaning(p, ctx, slot.idx, c.pool[k].res);
    DenRunAll(p, ctx.env.fn, Waiting(ctx));
  }

  lemma ClosingHoused(c: Config, k: Key, ctx: Context, pool1: Pool)
    requires Housed(c.pool) && k.Msg? && pool1 == c.pool - {k} - {Inv(ctx.env.id)}
    requires forall j :: j in c.pool && j != k && SlotOf(c.pool[j]).Some? ==> SlotOf(c.pool[j]).value.owner != ctx.env.id
    ensures Housed(pool1)
  {
    assert forall id :: IsLive(pool1, id) <==> IsLive(c.pool, id) && id != ctx.env.id;
  }

  lemma CloseMaySettle(p: Program, root: Task, c: Config, k: Key, ctx: Context, pool2: Pool)
    requires KeysOk(c) && SlotsUnique(c.pool) && Owned(c) && AllRight(p, root, c.pool)
    requires Reduced(c.pool, k, ctx, pool2)
    requires ctx.batch.pending == 1 == Missing(ctx.batch.results) && |ctx.tasks| == |ctx.batch.results|
    requires forall i :: 0 <= i < |ctx.batch.results| && i != c.pool[k].slot.idx ==> ctx.batch.results[i].Some?
    ensures MaySettle(p, root, Closing(c, k, ctx), ctx.env, ClosingOutcome(p, c, k, ctx))
  {
    var owner := Inv(c.pool[k].slot.owner);
    var pool1 := Closing(c, k, ctx).pool;
    ConservedHoused(c);
    ReducedNotOwned(c, k, ctx, pool2);
    ReducedFacts(c, k, ctx, pool2);
    ClosingMeaning(p, root, c, k, ctx);
    ClosingHoused(c, k, ctx, pool1);
    RemainRight(p, root, c.pool, pool1);
  }

  lemma DeliverFaithful(p: Program, root: Task, c: Config, k: Key, c2: Config)
    requires Conserved(c) && Conserved(c2) && Faithful(p, root, c) && CanDeliver(c, k) && c2 == Deliver(p, c, k)
    ensures Faithful(p, root, c2)
  {
    RepliesMatch(c, k);
    var ctx := c.pool[Inv(c.pool[k].slot.owner)].ctx;
    if ctx.batch.pending == 1 {
      DeliverCloses(p, c, k, ctx);
      CloseMaySettle(p, root, c, k, ctx, (c.pool - {k, Inv(c.pool[k].slot.owner)})[k := Invoke(ctx.env)]);
      SettleRight(p, root, Closing(c, k, ctx), ctx.env, ctx.runCounter, ctx.batchCounter, ctx.born, ClosingOutcome(p, c, k, ctx), c2);
    } else {
      DeliverRecords(p, c, k, ctx);
      ConservedHoused(c);
      RecordFaithful(p, root, c, k, ctx, c2);
    }
  }

  lemma {:induction false} PollFaithful(p: Program, root: Task, c: Config, ks: seq<Key>, c2: Config)
    requires p.WellFormed() && Conserved(c) && Faithful(p, root, c) && c2 == Poll(p, c, ks)
    ensures Faithful(p, root, c2)
    decreases |ks|
  {
    if ks != [] {
      if CanDeliver(c, ks[0]) {
        var c1 := Deliver(p, c, ks[0]);
        DeliverConserves(p, c, ks[0], c1);
        DeliverFaithful(p, root, c, ks[0], c1);
        PollFaithful(p, root, c1, ks[1..], c2);
      } else {
        PollFaithful(p, root, c, ks[1..], c2);
      }
    }
  }

  lemma StepFaithful(p: Program, root: Task, cs: seq<Config>, i: nat, c: Config, c': Config)
    requires p.WellFormed() && IsRun(p, root, cs) && 0 < i < |cs| && c == cs[i - 1] && c' == cs[i]
    requires Faithful(p, root, c)
    ensures Faithful(p, root, c')
  {
    assert StepTo(p, cs, i);
    RunConserved(p, root, cs, i - 1);
    RunConserved(p, root, cs, i);
    if k :| Starts(p, c, k, c') {
      StartFaithful(p, root, c, k, c');
    } else {
      var id, ks :| Polls(p, c, id, ks, c');
      PollFaithful(p, root, c, ks, c');
    }
  }

  lemma {:induction false} RunFaithful(p: Program, root: Task, cs: seq<Config>, i: nat)
    requires p.WellFormed() && IsRun(p, root, cs) && i < |cs|
    ensures Faithful(p, root, cs[i])
    decreases i
  {
    if i > 0 {
      RunFaithful(p, root, cs, i - 1);
      StepFaithful(p, root, cs, i, cs[i - 1], cs[i]);
    }
  }

  /** Every crash-free interleaving that ends the run reports what direct recursive evaluation gives. */
  lemma DistributedRefinesRecursive(p: Program, root: Task, c: Config)
    requires p.WellFormed() && Reachable(p, root, c) && c.events != []
    ensures |c.events| == 1
    ensures exists fuel: nat :: Eval(p, fuel, root.fn, root.payload).Some?
                                && Eval(p, fuel, root.fn, root.payload).value.res == Said(c.events[0])
  {
    var cs :| IsRun(p, root, cs) && cs[|cs| - 1] == c;
    RunConserved(p, root, cs, |cs| - 1);
    RunFaithful(p, root, cs, |cs| - 1);
    assert Den(p, root.fn, root.payload).Some?;
    var fuel := DenIsEval(p, root.fn, root.payload);
  }
}
