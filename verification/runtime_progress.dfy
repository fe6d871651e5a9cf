// Progress and exact accounting: until the run ends some step is enabled, every step consumes
// messages, and for a finite call tree every complete run consumes the same number of them.
module RuntimeProgress {
  import opened Wrappers
  import opened Programs
  import opened Contexts
  import opened Runtime
  import opened RuntimeInvariants
  import opened RuntimeHistory
  import opened RuntimeRefinement

  // ---- Some step is enabled ----

  function Born(pool: Pool, id: Id): nat {
    if IsLive(pool, id) then pool[Inv(id)].ctx.born else 0
  }

  lemma {:induction false} LatestBorn(pool: Pool, ids: set<Id>) returns (id: Id)
    requires ids != {}
    ensures id in ids && forall x :: x in ids ==> Born(pool, x) <= Born(pool, id)
    decreases |ids|
  {
    var x :| x in ids;
    if ids == {x} {
      id := x;
    } else {
      assert ids - {x} != {};
      var y := LatestBorn(pool, ids - {x});
      id := if Born(pool, x) <= Born(pool, y) then y else x;
    }
  }

  lemma {:induction false} EarliestBorn(pool: Pool, ids: set<Id>) returns (id: Id)
    requires ids != {}
    ensures id in ids && forall x :: x in ids ==> Born(pool, id) <= Born(pool, x)
    decreases |ids|
  {
    var x :| x in ids;
    if ids == {x} {
      id := x;
    } else {
      assert ids - {x} != {};
      var y := EarliestBorn(pool, ids - {x});
      id := if Born(pool, x) <= Born(pool, y) then x else y;
    }
  }

  function LiveIds(pool: Pool): (ids: set<Id>)
    ensures forall id :: id in ids <==> IsLive(pool, id)
  {
    set k | k in pool && k.Inv? && pool[k].Live? :: k.id
  }

  lemma HasOpenSlot(ctx: Context, clock: nat) returns (i: nat)
    requires ContextOk(ctx, clock)
    ensures i < |ctx.batch.results| && ctx.batch.results[i].None?
  {
    MissingZero(ctx.batch.results);
    i :| 0 <= i < |ctx.batch.results| && ctx.batch.results[i].None?;
  }

  /** The latest born live invocation waits for a message that can be consumed now. */
  lemma WaitsForMessage(c: Config) returns (k: Key)
    requires Conserved(c) && LiveIds(c.pool) != {}
    ensures k in c.pool && !c.pool[k].Live?
  {
    var id := LatestBorn(c.pool, LiveIds(c.pool));
    var i := HasOpenSlot(c.pool[Inv(id)].ctx, c.clock);
    var slot := Slot(id, c.pool[Inv(id)].ctx.number, i);
    assert Open(c.pool, slot);
    k :| Carries(c.pool, k, Some(slot));
    assert OwnedOk(c, k);
    if c.pool[k].Live? {
      assert k.Inv? && IsLive(c.pool, k.id);
    }
  }

  lemma SomeMessage(c: Config) returns (k: Key)
    requires Conserved(c) && c.events == []
    ensures k in c.pool && !c.pool[k].Live?
  {
    k :| Carries(c.pool, k, None);
    if c.pool[k].Live? {
      assert k.Inv? && IsLive(c.pool, k.id);
      k := WaitsForMessage(c);
    }
  }

  lemma OneReply(p: Program, c: Config, k: Key)
    requires CanDeliver(c, k)
    ensures CanPoll(c, c.pool[k].slot.owner, [k]) && Poll(p, c, [k]) == Deliver(p, c, k)
  {
    assert [k][1..] == [];
  }

  /** Until the run has ended some message can be consumed: nothing is ever stuck. */
  lemma Progress(p: Program, c: Config) returns (c': Config)
    requires p.WellFormed() && Conserved(c) && c.events == []
    ensures Step(p, c, c') && c'.consumed == c.consumed + 1
  {
    var k := SomeMessage(c);
    if c.pool[k].Invoke? {
      c' := Start(p, c, k);
      assert Starts(p, c, k, c');
    } else {
      RepliesMatch(c, k);
      OneReply(p, c, k);
      DeliverConsumes(p, c, k);
      c' := Poll(p, c, [k]);
      assert Polls(p, c, c.pool[k].slot.owner, [k], c');
    }
  }

  // ---- Every step consumes messages ----

  lemma DeliverConsumes(p: Program, c: Config, k: Key)
    requires CanDeliver(c, k)
    ensures Deliver(p, c, k).consumed == c.consumed + 1
  {
  }

  lemma DeliverKeepsMessages(p: Program, c: Config, k: Key, j: Key)
    requires KeysOk(c) && CanDeliver(c, k) && j in c.pool && j != k && c.pool[j].Reply?
    ensures j in Deliver(p, c, k).pool && Deliver(p, c, k).pool[j] == c.pool[j]
  {
    var slot := c.pool[k].slot;
    var ctx := c.pool[Inv(slot.owner)].ctx;
    var batch := Record(ctx.batch, slot.idx, c.pool[k].res);
    assert j.Msg? && j.n < c.clock;
    if batch.pending == 0 && forall i :: 0 <= i < |batch.results| ==> batch.results[i].Some? {
      var c1 := c.(pool := c.pool - {k} - {Inv(slot.owner)}, consumed := c.consumed + 1,
                   fired := c.fired + [(slot.owner, ctx.number)]);
      SettleKeepsMessages(p, c1, ctx.env, ctx.runCounter, ctx.batchCounter, ctx.born,
                          p.callback(ctx.env.fn, batch.callback, Filled(batch.results), batch.state), j);
    }
  }

  lemma SettleKeepsMessages(p: Program, c: Config, env: Envelope, runCounter: nat, batchCounter: nat, born: nat, o: Outcome, j: Key)
    requires j in c.pool && j.Msg? && j.n < c.clock
    ensures var c2 := Settle(p, c, env, runCounter, batchCounter, born, o); j in c2.pool && c2.pool[j] == c.pool[j]
  {
  }

  /** Different replies waiting in the inbox of `id`. */
  predicate InInbox(c: Config, id: Id, ks: seq<Key>) {
    && (forall i, j :: 0 <= i < j < |ks| ==> ks[i] != ks[j])
    && (forall i :: 0 <= i < |ks| ==> ks[i] in c.pool && c.pool[ks[i]].Reply? && c.pool[ks[i]].slot.owner == id)
  }

  /** One poll iteration can receive any one to ten replies of an inbox, in any order, and consumes all it
      received: none is ever put back. */
  lemma {:induction false} PollConsumes(p: Program, c: Config, id: Id, ks: seq<Key>)
    requires p.WellFormed() && Conserved(c) && |ks| <= 10 && InInbox(c, id, ks)
    ensures ks != [] ==> Polls(p, c, id, ks, Poll(p, c, ks))
    ensures Poll(p, c, ks).consumed == c.consumed + |ks|
    decreases |ks|
  {
    if ks != [] {
      RepliesMatch(c, ks[0]);
      var c1 := Deliver(p, c, ks[0]);
      DeliverConserves(p, c, ks[0], c1);
      DeliverConsumes(p, c, ks[0]);
      forall i | 0 <= i < |ks[1..]| ensures ks[1..][i] in c1.pool && c1.pool[ks[1..][i]] == c.pool[ks[1 + i]] {
        DeliverKeepsMessages(p, c, ks[0], ks[1 + i]);
      }
      PollConsumes(p, c1, id, ks[1..]);
    }
  }

  lemma StartConsumes(p: Program, c: Config, k: Key)
    requires CanStart(c, k)
    ensures Start(p, c, k).consumed == c.consumed + 1
  {
  }

  /** Every step consumes at least one message, so time never passes without one. */
  lemma StepConsumes(p: Program, root: Task, cs: seq<Config>, i: nat, c: Config, c': Config)
    requires p.WellFormed() && IsRun(p, root, cs) && 0 < i < |cs| && c == cs[i - 1] && c' == cs[i]
    ensures c'.consumed > c.consumed
  {
    assert StepTo(p, cs, i);
    RunConserved(p, root, cs, i - 1);
    if k :| Starts(p, c, k, c') {
      StartConsumes(p, c, k);
    } else {
      var id, ks :| Polls(p, c, id, ks, c');
      PollConsumes(p, c, id, ks);
    }
  }

  // ---- When the run has ended nothing is left over ----

  lemma OwnerIsEarlier(c: Config, k: Key) returns (owner: Id)
    requires Conserved(c) && c.events != [] && k in c.pool
    ensures IsLive(c.pool, owner)
    ensures c.pool[k].Live? ==> Born(c.pool, owner) < c.pool[k].ctx.born
  {
    assert !Carries(c.pool, k, None) && OwnedOk(c, k);
    owner := SlotOf(c.pool[k]).value.owner;
  }

  /** When the run has ended no message is left and no invocation is still waiting. */
  lemma EndedIsEmpty(c: Config)
    requires Conserved(c) && c.events != []
    ensures c.pool == map[]
  {
    if c.pool != map[] {
      var k :| k in c.pool;
      var owner := OwnerIsEarlier(c, k);
      var id := EarliestBorn(c.pool, LiveIds(c.pool));
      owner := OwnerIsEarlier(c, Inv(id));
    }
  }

  // ---- The messages still to come ----

  function Bit(ret: Option<Slot>): nat {
    if ret.Some? then 1 else 0
  }

  ghost function CostOf(d: Option<Done>): nat {
    if d.Some? then d.value.cost else 0
  }

  /** The messages the runtime will consume on behalf of this token alone. */
  ghost function Weight(p: Program, t: Token): nat {
    match t
    case Invoke(env) => CostOf(Den(p, env.fn, env.payload)) + Bit(env.ret)
    case Live(ctx) =>
      Bit(ctx.env.ret) +
      if AllDefined(p, ctx.tasks) then CostOf(DenOutcome(p, ctx.env.fn, Resumed(p, ctx.env.fn, Waiting(ctx)))) else 0
    case Reply(_, _, _) => 1
  }

  ghost function Total(p: Program, pool: Pool): nat {
    if pool == map[] then 0
    else var k :| k in pool; Weight(p, pool[k]) + Total(p, pool - {k})
  }

  lemma {:induction false} TotalWithout(p: Program, pool: Pool, k: Key)
    requires k in pool
    ensures Total(p, pool) == Weight(p, pool[k]) + Total(p, pool - {k})
    decreases |pool|
  {
    var j :| j in pool && Total(p, pool) == Weight(p, pool[j]) + Total(p, pool - {j});
    if j != k {
      TotalWithout(p, pool - {j}, k);
      TotalWithout(p, pool - {k}, j);
      assert pool - {j} - {k} == pool - {k} - {j};
    }
  }

  lemma TotalWith(p: Program, pool: Pool, k: Key, t: Token)
    requires k !in pool
    ensures Total(p, pool[k := t]) == Total(p, pool) + Weight(p, t)
  {
    TotalWithout(p, pool[k := t], k);
    assert pool[k := t] - {k} == pool;
  }

  lemma CostOfPrefix(p: Program, tasks: seq<Task>, n: nat)
    requires AllDefined(p, tasks) && 0 < n <= |tasks|
    ensures Cost(DenTasks(p, tasks)[..n]) ==
              Cost(DenTasks(p, tasks)[..n - 1]) + CostOf(Den(p, tasks[n - 1].fn, tasks[n - 1].payload)) + 1
  {
    assert DenTasks(p, tasks)[..n][..n - 1] == DenTasks(p, tasks)[..n - 1];
  }

  lemma ChildrenStep(pool: Pool, env: Envelope, number: nat, ids: seq<Id>, tasks: seq<Task>, clock: nat, n: nat)
    requires 0 < n <= |tasks| == |ids|
    requires forall k: Key :: k in pool && k.Msg? ==> k.n < clock
    ensures var before := pool + Children(env, number, ids, tasks, clock, n - 1);
            && Msg(clock + n - 1) !in before
            && pool + Children(env, number, ids, tasks, clock, n) ==
                 before[Msg(clock + n - 1) := Invoke(ChildEnvelope(env.id, number, ids, tasks, n - 1))]
  {
    var fewer, k, t := Children(env, number, ids, tasks, clock, n - 1), Msg(clock + n - 1),
                       Invoke(ChildEnvelope(env.id, number, ids, tasks, n - 1));
    assert k !in fewer;
    assert pool + fewer[k := t] == (pool + fewer)[k := t];
  }

  lemma {:induction false} TotalWithChildren(p: Program, pool: Pool, env: Envelope, number: nat, ids: seq<Id>, tasks: seq<Task>, clock: nat, n: nat)
    requires n <= |tasks| == |ids| && AllDefined(p, tasks)
    requires forall k: Key :: k in pool && k.Msg? ==> k.n < clock
    ensures Total(p, pool + Children(env, number, ids, tasks, clock, n)) ==
              Total(p, pool) + Cost(DenTasks(p, tasks)[..n])
    decreases n
  {
    if n == 0 {
      assert pool + map[] == pool;
    } else {
      TotalWithChildren(p, pool, env, number, ids, tasks, clock, n - 1);
      ChildrenStep(pool, env, number, ids, tasks, clock, n);
      TotalWith(p, pool + Children(env, number, ids, tasks, clock, n - 1), Msg(clock + n - 1),
                Invoke(ChildEnvelope(env.id, number, ids, tasks, n - 1)));
      CostOfPrefix(p, tasks, n);
    }
  }

  // ---- Settling moves weight around but loses none ----

  ghost predicate AllDefinedIn(p: Program, pool: Pool) {
    forall k :: k in pool ==> Meaning(p, pool[k]).Some?
  }

  lemma FamilyDefined(p: Program, pool: Pool, ctx: Context, clock: nat)
    requires AllDefinedIn(p, pool) && Meaning(p, Live(ctx)).Some? && AllDefined(p, ctx.tasks)
    requires |ctx.tasks| == |ctx.batch.childIds|
    ensures AllDefinedIn(p, pool[Inv(ctx.env.id) := Live(ctx)]
                            + Children(ctx.env, ctx.number, ctx.batch.childIds, ctx.tasks, clock, |ctx.tasks|))
  {
  }

  lemma FamilyTotal(p: Program, pool: Pool, ctx: Context, clock: nat)
    requires Inv(ctx.env.id) !in pool && forall k: Key :: k in pool && k.Msg? ==> k.n < clock
    requires Meaning(p, Live(ctx)).Some? && AllDefined(p, ctx.tasks) && |ctx.tasks| == |ctx.batch.childIds|
    ensures Total(p, pool[Inv(ctx.env.id) := Live(ctx)]
                     + Children(ctx.env, ctx.number, ctx.batch.childIds, ctx.tasks, clock, |ctx.tasks|)) ==
              Total(p, pool) + Meaning(p, Live(ctx)).value.cost + Bit(ctx.env.ret)
  {
    DenRunAll(p, ctx.env.fn, Waiting(ctx));
    TotalWith(p, pool, Inv(ctx.env.id), Live(ctx));
    TotalWithChildren(p, pool[Inv(ctx.env.id) := Live(ctx)], ctx.env, ctx.number, ctx.batch.childIds, ctx.tasks, clock, |ctx.tasks|);
    assert DenTasks(p, ctx.tasks)[..|ctx.tasks|] == DenTasks(p, ctx.tasks);
  }

  lemma FanOutAccounts(p: Program, c: Config, env: Envelope, runCounter: nat, batchCounter: nat, born: nat, o: Outcome)
    requires Inv(env.id) !in c.pool && forall k: Key :: k in c.pool && k.Msg? ==> k.n < c.clock
    requires AllDefinedIn(p, c.pool) && DenOutcome(p, env.fn, o).Some? && o.RunAll?
    ensures var pool2 := FanOut(c, env, runCounter, batchCounter, born, o).pool;
            && AllDefinedIn(p, pool2)
            && Total(p, pool2) == Total(p, c.pool) + DenOutcome(p, env.fn, o).value.cost + Bit(env.ret)
  {
    var n := |o.tasks|;
    var batch := OpenBatch(env.id, runCounter, n, o.callback, o.state, map[]);
    var ctx := Context(env, runCounter + n, batchCounter + 1, batchCounter, batch, born, o.tasks);
    assert Waiting(ctx) == o;
    DenRunAll(p, env.fn, o);
    FamilyDefined(p, c.pool, ctx, c.clock);
    FamilyTotal(p, c.pool, ctx, c.clock);
    FanOutPool(c, env, runCounter, batchCounter, born, o, ctx);
  }

  lemma SettleAccounts(p: Program, c: Config, env: Envelope, runCounter: nat, batchCounter: nat, born: nat, o: Outcome, c2: Config)
    requires Inv(env.id) !in c.pool && forall k: Key :: k in c.pool && k.Msg? ==> k.n < c.clock
    requires AllDefinedIn(p, c.pool) && DenOutcome(p, env.fn, o).Some?
    requires c2 == Settle(p, c, env, runCounter, batchCounter, born, o)
    ensures AllDefinedIn(p, c2.pool)
    ensures Total(p, c2.pool) == Total(p, c.pool) + DenOutcome(p, env.fn, o).value.cost + Bit(env.ret)
    ensures c2.consumed == c.consumed
  {
    if o.RunAll? {
      FanOutAccounts(p, c, env, runCounter, batchCounter, born, o);
    } else {
      if o.Next? && o.fn in p.known { DenNext(p, env.fn, o); } else { DenFinal(p, env.fn, o); }
      if Msg(c.clock) in c2.pool {
        TotalWith(p, c.pool, Msg(c.clock), c2.pool[Msg(c.clock)]);
      }
    }
  }

  /** Messages consumed so far plus messages still to come make up the cost of the whole call tree. */
  ghost predicate Accounted(p: Program, root: Task, c: Config) {
    && Den(p, root.fn, root.payload).Some?
    && AllDefinedIn(p, c.pool)
    && c.consumed + Total(p, c.pool) == Den(p, root.fn, root.payload).value.cost
  }

  lemma StartAccounts(p: Program, root: Task, c: Config, k: Key, c2: Config)
    requires KeysOk(c) && IdsUnique(c.pool) && Owned(c) && Accounted(p, root, c) && CanStart(c, k) && c2 == Start(p, c, k)
    ensures Accounted(p, root, c2)
  {
    var env := c.pool[k].env;
    var c1 := c.(pool := c.pool - {k}, clock := c.clock + 1, consumed := c.consumed + 1);
    assert k.Msg?;
    PendingOwnsNothing(c, k);
    StartSettles(p, c, k, c1);
    TotalWithout(p, c.pool, k);
    assert Meaning(p, c.pool[k]).Some?;
    DenCall(p, env.fn, env.payload);
    SettleAccounts(p, c1, env, 0, 0, c.clock, p.handler(env.fn, env.payload), c2);
  }

  lemma RecordAccounts(p: Program, root: Task, c: Config, k: Key, ctx: Context, c2: Config)
    requires Recorded(c.pool, k, ctx, c2.pool) && Accounted(p, root, c) && c2.consumed == c.consumed + 1
    ensures Accounted(p, root, c2)
  {
    var owner := Inv(c.pool[k].slot.owner);
    var rest := c.pool - {k} - {owner};
    assert Meaning(p, c.pool[owner]).Some?;
    TotalWithout(p, c.pool, k);
    TotalWithout(p, c.pool - {k}, owner);
    TotalWith(p, rest, owner, c2.pool[owner]);
    assert c2.pool == rest[owner := c2.pool[owner]];
    assert Weight(p, c2.pool[owner]) == Weight(p, c.pool[owner]) && Meaning(p, c2.pool[owner]) == Meaning(p, c.pool[owner]);
  }

  lemma CloseAccounts(p: Program, root: Task, c: Config, k: Key, ctx: Context, c2: Config)
    requires KeysOk(c) && Accounted(p, root, c) && AllRight(p, root, c.pool)
    requires k in c.pool && c.pool[k].Reply? && k.Msg? && Open(c.pool, c.pool[k].slot) && c.pool[k].slot.owner == ctx.env.id
    requires c.pool[Inv(c.pool[k].slot.owner)] == Live(ctx) && |ctx.tasks| == |ctx.batch.results|
    requires forall i :: 0 <= i < |ctx.batch.results| && i != c.pool[k].slot.idx ==> ctx.batch.results[i].Some?
    requires c2 == Settle(p, Closing(c, k, ctx), ctx.env, ctx.runCounter, ctx.batchCounter, ctx.born, ClosingOutcome(p, c, k, ctx))
    ensures Accounted(p, root, c2)
  {
    var owner := Inv(ctx.env.id);
    assert Meaning(p, c.pool[owner]).Some?;
    assert TokenRight(p, root, c.pool, c.pool[owner]) && TokenRight(p, root, c.pool, c.pool[k]);
    FullBatchMeaning(p, ctx, c.pool[k].slot.idx, c.pool[k].res);
    DenRunAll(p, ctx.env.fn, Waiting(ctx));
    assert ClosingOutcome(p, c, k, ctx) == Resumed(p, ctx.env.fn, Waiting(ctx));
    TotalWithout(p, c.pool, k);
    TotalWithout(p, c.pool - {k}, owner);
    SettleAccounts(p, Closing(c, k, ctx), ctx.env, ctx.runCounter, ctx.batchCounter, ctx.born, ClosingOutcome(p, c, k, ctx), c2);
  }

  lemma DeliverAccounts(p: Program, root: Task, c: Config, k: Key, c2: Config)
    requires Conserved(c) && Faithful(p, root, c) && Accounted(p, root, c) && CanDeliver(c, k) && c2 == Deliver(p, c, k)
    ensures Accounted(p, root, c2)
  {
    RepliesMatch(c, k);
    var ctx := c.pool[Inv(c.pool[k].slot.owner)].ctx;
    if ctx.batch.pending == 1 {
      DeliverCloses(p, c, k, ctx);
      CloseAccounts(p, root, c, k, ctx, c2);
    } else {
      DeliverRecords(p, c, k, ctx);
      RecordAccounts(p, root, c, k, ctx, c2);
    }
  }

  lemma {:induction false} PollAccounts(p: Program, root: Task, c: Config, ks: seq<Key>, c2: Config)
    requires p.WellFormed() && Conserved(c) && Faithful(p, root, c) && Accounted(p, root, c) && c2 == Poll(p, c, ks)
    ensures Accounted(p, root, c2)
    decreases |ks|
  {
    if ks != [] {
      if CanDeliver(c, ks[0]) {
        var c1 := Deliver(p, c, ks[0]);
        DeliverConserves(p, c, ks[0], c1);
        DeliverFaithful(p, root, c, ks[0], c1);
        DeliverAccounts(p, root, c, ks[0], c1);
        PollAccounts(p, root, c1, ks[1..], c2);
      } else {
        PollAccounts(p, root, c, ks[1..], c2);
      }
    }
  }

  lemma StartedAccounts(p: Program, root: Task, cs: seq<Config>, i: nat, c: Config, k: Key, c': Config)
    requires p.WellFormed() && IsRun(p, root, cs) && i < |cs| && c == cs[i]
    requires Accounted(p, root, c) && Starts(p, c, k, c')
    ensures Accounted(p, root, c')
  {
    RunConserved(p, root, cs, i);
    StartAccounts(p, root, c, k, c');
  }

  lemma PolledAccounts(p: Program, root: Task, cs: seq<Config>, i: nat, c: Config, id: Id, ks: seq<Key>, c': Config)
    requires p.WellFormed() && IsRun(p, root, cs) && i < |cs| && c == cs[i]
    requires Accounted(p, root, c) && Polls(p, c, id, ks, c')
    ensures Accounted(p, root, c')
  {
    RunConserved(p, root, cs, i);
    RunFaithful(p, root, cs, i);
    PollAccounts(p, root, c, ks, c');
  }

  lemma StepAccounts(p: Program, root: Task, cs: seq<Config>, i: nat, c: Config, c': Config)
    requires p.WellFormed() && IsRun(p, root, cs) && 0 < i < |cs| && c == cs[i - 1] && c' == cs[i]
    requires Accounted(p, root, c)
    ensures Accounted(p, root, c')
  {
    assert StepTo(p, cs, i);
    if k :| Starts(p, c, k, c') {
      StartedAccounts(p, root, cs, i - 1, c, k, c');
    } else {
      var id, ks :| Polls(p, c, id, ks, c');
      PolledAccounts(p, root, cs, i - 1, c, id, ks, c');
    }
  }

  lemma InitAccounted(p: Program, root: Task)
    requires Den(p, root.fn, root.payload).Some?
    ensures Accounted(p, root, Init(root))
  {
    TotalWith(p, map[], Msg(0), Init(root).pool[Msg(0)]);
  }

  lemma {:induction false} RunAccounted(p: Program, root: Task, cs: seq<Config>, i: nat)
    requires p.WellFormed() && IsRun(p, root, cs) && i < |cs| && Den(p, root.fn, root.payload).Some?
    ensures Accounted(p, root, cs[i])
    decreases i
  {
    if i == 0 {
      InitAccounted(p, root);
    } else {
      RunAccounted(p, root, cs, i - 1);
      StepAccounts(p, root, cs, i, cs[i - 1], cs[i]);
    }
  }

  lemma {:induction false} RunConsumes(p: Program, root: Task, cs: seq<Config>, i: nat)
    requires p.WellFormed() && IsRun(p, root, cs) && i < |cs|
    ensures cs[i].consumed >= i
    decreases i
  {
    if i > 0 {
      RunConsumes(p, root, cs, i - 1);
      StepConsumes(p, root, cs, i, cs[i - 1], cs[i]);
    }
  }

  // ---- The main results ----

  ghost predicate Ended(c: Config) {
    c.events != []
  }

  ghost predicate Stuck(p: Program, c: Config) {
    forall c' :: !Step(p, c, c')
  }

  /** A run of a finite call tree is never longer than the evaluator's cost, and it can only stop by
      ending: with one terminal event, an empty system, every opened batch fired, and exactly the
      evaluator's cost in messages consumed, whatever the interleaving. */
  lemma FiniteRunsEnd(p: Program, root: Task, cs: seq<Config>, fuel: nat)
    requires p.WellFormed() && IsRun(p, root, cs) && Eval(p, fuel, root.fn, root.payload).Some?
    ensures var c := cs[|cs| - 1];
            var d := Eval(p, fuel, root.fn, root.payload).value;
            && |cs| - 1 <= c.consumed <= d.cost
            && (Stuck(p, c) <==> Ended(c))
            && (Ended(c) ==>
                  && c.events == [if d.res.Ok? then RunCompleted(d.res.value) else RunFailed(d.res.error)]
                  && c.consumed == d.cost
                  && c.pool == map[]
                  && (forall b :: b in c.begun <==> b in c.fired))
  {
    var n := |cs| - 1;
    var c := cs[n];
    EvalIsDen(p, fuel, root.fn, root.payload);
    RunConserved(p, root, cs, n);
    RunFaithful(p, root, cs, n);
    RunAccounted(p, root, cs, n);
    RunConsumes(p, root, cs, n);
    RunLogged(p, root, cs, n);
    if c.events == [] {
      var c' := Progress(p, c);
    } else {
      EndedIsEmpty(c);
      EmptyIsStuck(p, c);
      AllFired(c);
    }
  }

  lemma EmptyIsStuck(p: Program, c: Config)
    requires c.pool == map[]
    ensures Stuck(p, c)
  {
    forall id, ks ensures !CanPoll(c, id, ks) {
      if ks != [] { assert ks[0] !in c.pool; }
    }
  }

  lemma AllFired(c: Config)
    requires Logged(c) && c.pool == map[]
    ensures forall b :: b in c.begun <==> b in c.fired
  {
    forall b ensures b in c.begun <==> b in c.fired {
      assert b == (b.0, b.1);
    }
  }

  /** In every reachable state: at most one terminal event; every unfilled slot of a live invocation has
      exactly one carrier and every filled slot none; `pending` counts the unfilled slots; no id is
      issued twice and no callback runs twice for one batch. */
  lemma SlotConservation(p: Program, root: Task, c: Config)
    requires p.WellFormed() && Reachable(p, root, c)
    ensures |c.events| <= 1
    ensures c.events == [] <==> exists k :: Carries(c.pool, k, None)
    ensures forall id, i: nat :: IsLive(c.pool, id) && i < |c.pool[Inv(id)].ctx.batch.results| ==>
              var ctx := c.pool[Inv(id)].ctx;
              && ctx.batch.pending == Missing(ctx.batch.results) > 0
              && (ctx.batch.results[i].None? <==> exists k :: Carries(c.pool, k, Some(Slot(id, ctx.number, i))))
    ensures forall k, l, s :: Carries(c.pool, k, s) && Carries(c.pool, l, s) ==> k == l
    ensures NoDuplicates(c.issued) && NoDuplicates(c.begun) && NoDuplicates(c.fired)
  {
    var cs :| IsRun(p, root, cs) && cs[|cs| - 1] == c;
    RunConserved(p, root, cs, |cs| - 1);
    RunLogged(p, root, cs, |cs| - 1);
    forall id, i: nat | IsLive(c.pool, id) && i < |c.pool[Inv(id)].ctx.batch.results|
      ensures var ctx := c.pool[Inv(id)].ctx;
              && ctx.batch.pending == Missing(ctx.batch.results) > 0
              && (ctx.batch.results[i].None? <==> exists k :: Carries(c.pool, k, Some(Slot(id, ctx.number, i))))
    {
      CarriedExactly(c, id, i);
    }
  }

  lemma CarriedExactly(c: Config, id: Id, i: nat)
    requires KeysOk(c) && Owned(c) && Carried(c.pool)
    requires IsLive(c.pool, id) && i < |c.pool[Inv(id)].ctx.batch.results|
    ensures var ctx := c.pool[Inv(id)].ctx;
            && ctx.batch.pending == Missing(ctx.batch.results) > 0
            && (ctx.batch.results[i].None? <==> exists k :: Carries(c.pool, k, Some(Slot(id, ctx.number, i))))
  {
    var ctx := c.pool[Inv(id)].ctx;
    assert ContextOk(ctx, c.clock);
    var s := Slot(id, ctx.number, i);
    if ctx.batch.results[i].None? {
      assert Open(c.pool, s);
    } else {
      forall k ensures !Carries(c.pool, k, Some(s)) {
        assert Carries(c.pool, k, Some(s)) ==> OwnedOk(c, k);
      }
    }
  }
}
