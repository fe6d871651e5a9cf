// Over a whole crash-free run no invocation id is issued twice and no batch fires twice.
module RuntimeHistory {
  import opened Programs
  import opened Contexts
  import opened Runtime
  import opened RuntimeInvariants

  ghost predicate NoDuplicates<T>(s: seq<T>) {
    forall i, j :: 0 <= i < j < |s| ==> s[i] != s[j]
  }

  lemma NoDuplicatesAppend<T>(s: seq<T>, t: seq<T>)
    requires NoDuplicates(s) && NoDuplicates(t)
    requires forall x :: x in t ==> x !in s
    ensures NoDuplicates(s + t)
  {
    forall i, j | 0 <= i < j < |s + t| ensures (s + t)[i] != (s + t)[j] {
      if i < |s| && j >= |s| { assert (s + t)[j] in t; }
    }
  }

  ghost predicate Pending(pool: Pool, id: Id) {
    exists k :: k in pool && pool[k].Invoke? && pool[k].env.id == id
  }

  ghost predicate Logged(c: Config) {
    IssuedOk(c) && FiredOk(c) && OpenedOk(c)
  }

  /** What the logs say about one live invocation. */
  ghost predicate LiveHistory(c: Config, ctx: Context) {
    var id := ctx.env.id;
    && ctx.batchCounter == ctx.number + 1
    && (forall m: nat :: Child(id, m) in c.issued ==> m < ctx.runCounter)
    && (forall b: nat :: (id, b) in c.fired <==> b < ctx.number)
  }

  ghost predicate IssuedOk(c: Config) {
    && NoDuplicates(c.issued)
    && (forall n: nat :: Uuid(n) in c.issued ==> n < c.clock)
    && (forall p: Id, m: nat :: Child(p, m) in c.issued ==> p in c.issued && !Pending(c.pool, p))
    && (forall k :: k in c.pool && c.pool[k].Invoke? ==> c.pool[k].env.id in c.issued)
    && (forall k :: k in c.pool && c.pool[k].Live? ==> c.pool[k].ctx.env.id in c.issued)
    && (forall k :: k in c.pool && c.pool[k].Reply? ==> c.pool[k].from in c.issued)
  }

  ghost predicate FiredOk(c: Config) {
    && NoDuplicates(c.fired)
    && (forall id: Id, b: nat :: (id, b) in c.fired ==> id in c.issued && !Pending(c.pool, id))
    && (forall k :: k in c.pool && c.pool[k].Live? ==> LiveHistory(c, c.pool[k].ctx))
  }

  /** A batch that was opened is still waiting in its live invocation, or its callback has run. */
  ghost predicate OpenedOk(c: Config) {
    && NoDuplicates(c.begun)
    && forall id: Id, b: nat ::
         (id, b) in c.begun <==> (id, b) in c.fired || (IsLive(c.pool, id) && c.pool[Inv(id)].ctx.number == b)
  }

  /** `id` is the execution being settled: it is in no token, and its counters fit the logs. */
  ghost predicate Settling(c: Config, id: Id, runCounter: nat, batchCounter: nat) {
    && id in c.issued
    && !Pending(c.pool, id)
    && (forall k :: k in c.pool && c.pool[k].Live? ==> c.pool[k].ctx.env.id != id)
    && (forall m: nat :: Child(id, m) in c.issued ==> m < runCounter)
    && (forall b: nat :: (id, b) in c.fired <==> b < batchCounter)
  }

  lemma CompleteHistory(c: Config, env: Envelope, r: Result)
    requires IssuedOk(c) && FiredOk(c) && env.id in c.issued
    ensures IssuedOk(Complete(c, env, r)) && FiredOk(Complete(c, env, r))
  {
    var c2 := Complete(c, env, r);
    forall id | Pending(c2.pool, id) ensures Pending(c.pool, id) {
      var k :| k in c2.pool && c2.pool[k].Invoke? && c2.pool[k].env.id == id;
      assert k in c.pool;
    }
    assert forall k :: k in c2.pool && c2.pool[k].Live? ==> k in c.pool && c2.pool[k] == c.pool[k];
    forall k | k in c2.pool && c2.pool[k].Live? ensures LiveHistory(c2, c2.pool[k].ctx) {
      assert LiveHistory(c, c.pool[k].ctx);
    }
  }

  lemma ChainHistory(c: Config, env: Envelope, fn: Name, v: Value)
    requires IssuedOk(c) && FiredOk(c)
    ensures IssuedOk(Chain(c, env, fn, v)) && FiredOk(Chain(c, env, fn, v))
  {
    var c2 := Chain(c, env, fn, v);
    var new_ := Uuid(c.clock);
    NoDuplicatesAppend(c.issued, [new_]);
    forall id | Pending(c2.pool, id) ensures id == new_ || Pending(c.pool, id) {
      var k :| k in c2.pool && c2.pool[k].Invoke? && c2.pool[k].env.id == id;
      assert k == Msg(c.clock) || k in c.pool;
    }
    assert forall k :: k in c2.pool && c2.pool[k].Live? ==> k in c.pool && c2.pool[k] == c.pool[k];
    forall k | k in c2.pool && c2.pool[k].Live? ensures LiveHistory(c2, c2.pool[k].ctx) {
      assert LiveHistory(c, c.pool[k].ctx);
    }
  }

  /** After a fan-out the pending executions are the old ones and the children, the live ones the
      old ones and the parent, and the replies the old ones. */
  ghost predicate Fanned(pool: Pool, pool2: Pool, ids: seq<Id>, id: Id, runCounter: nat, number: nat) {
    && (forall k :: k in pool2 && pool2[k].Invoke? ==>
          || (k in pool && pool2[k] == pool[k])
          || pool2[k].env.id in ids)
    && (forall k :: k in pool2 && pool2[k].Live? ==>
          || (k in pool && pool2[k] == pool[k])
          || (var ctx := pool2[k].ctx;
              ctx.env.id == id && ctx.number == number && ctx.batchCounter == number + 1 && ctx.runCounter == runCounter + |ids|))
    && (forall k :: k in pool2 && pool2[k].Reply? ==> k in pool && pool2[k] == pool[k])
    && (forall x :: x in ids ==> x.Child? && x.parent == id && runCounter <= x.k < runCounter + |ids|)
  }

  lemma FanOutTokens(c: Config, env: Envelope, runCounter: nat, batchCounter: nat, born: nat, o: Outcome)
    requires o.RunAll? && Inv(env.id) !in c.pool
    requires forall k: Key :: k in c.pool && k.Msg? ==> k.n < c.clock
    ensures Fanned(c.pool, FanOut(c, env, runCounter, batchCounter, born, o).pool,
                   ChildIds(env.id, runCounter, |o.tasks|), env.id, runCounter, batchCounter)
  {
    var ids := ChildIds(env.id, runCounter, |o.tasks|);
    var kids := Children(env, batchCounter, ids, o.tasks, c.clock, |o.tasks|);
    var pool2 := FanOut(c, env, runCounter, batchCounter, born, o).pool;
    forall k | k in pool2 ensures k in kids || k == Inv(env.id) || (k in c.pool && pool2[k] == c.pool[k]) {
    }
    forall k | k in kids ensures pool2[k] == kids[k] && pool2[k].Invoke? && pool2[k].env.id in ids {
      assert ids[k.n - c.clock] in ids;
    }
  }

  lemma FanOutIssued(c: Config, ids: seq<Id>, id: Id, runCounter: nat, batchCounter: nat, c2: Config)
    requires IssuedOk(c) && Settling(c, id, runCounter, batchCounter) && NoDuplicates(ids)
    requires Fanned(c.pool, c2.pool, ids, id, runCounter, batchCounter)
    requires c2.issued == c.issued + ids && c.clock <= c2.clock
    ensures IssuedOk(c2)
    ensures forall x :: Pending(c2.pool, x) ==> Pending(c.pool, x) || x in ids
  {
    NoDuplicatesAppend(c.issued, ids);
    forall x | Pending(c2.pool, x) ensures x in ids || Pending(c.pool, x) {
      var k :| k in c2.pool && c2.pool[k].Invoke? && c2.pool[k].env.id == x;
    }
  }

  lemma FanOutFired(c: Config, ids: seq<Id>, id: Id, runCounter: nat, batchCounter: nat, c2: Config)
    requires FiredOk(c) && Settling(c, id, runCounter, batchCounter)
    requires Fanned(c.pool, c2.pool, ids, id, runCounter, batchCounter)
    requires c2.issued == c.issued + ids && c2.fired == c.fired
    requires forall x :: Pending(c2.pool, x) ==> Pending(c.pool, x) || x in ids
    ensures FiredOk(c2)
  {
    forall k | k in c2.pool && c2.pool[k].Live? ensures LiveHistory(c2, c2.pool[k].ctx) {
      if k in c.pool && c2.pool[k] == c.pool[k] { assert LiveHistory(c, c.pool[k].ctx); }
    }
    forall x: Id, b: nat | (x, b) in c2.fired ensures x in c2.issued && !Pending(c2.pool, x) {
      assert x in c.issued;
    }
  }

  lemma SettleHistory(p: Program, c: Config, env: Envelope, runCounter: nat, batchCounter: nat, born: nat, o: Outcome, c2: Config)
    requires IssuedOk(c) && FiredOk(c) && Settling(c, env.id, runCounter, batchCounter)
    requires Inv(env.id) !in c.pool && forall k: Key :: k in c.pool && k.Msg? ==> k.n < c.clock
    requires c2 == Settle(p, c, env, runCounter, batchCounter, born, o)
    ensures IssuedOk(c2) && FiredOk(c2)
  {
    match o
    case Return(v) => CompleteHistory(c, env, Ok(v));
    case Throw(e) => CompleteHistory(c, env, Err(Thrown(e)));
    case Next(g, w) =>
      if g in p.known { ChainHistory(c, env, g, w); } else { CompleteHistory(c, env, Err(UnknownFunction(g))); }
    case RunAll(_, _, _) =>
      var ids := ChildIds(env.id, runCounter, |o.tasks|);
      FanOutTokens(c, env, runCounter, batchCounter, born, o);
      FanOutIssued(c, ids, env.id, runCounter, batchCounter, c2);
      FanOutFired(c, ids, env.id, runCounter, batchCounter, c2);
  }

  lemma OpenedStays(c: Config, id: Id, number: nat, c2: Config)
    requires OpenedOk(c) && (forall b: nat :: (id, b) in c.fired <==> b < number) && !IsLive(c.pool, id)
    requires c2.begun == c.begun + [(id, number)] && c2.fired == c.fired
    requires IsLive(c2.pool, id) && c2.pool[Inv(id)].ctx.number == number
    requires forall x :: x != id ==> (IsLive(c2.pool, x) <==> IsLive(c.pool, x))
    requires forall x :: x != id && IsLive(c.pool, x) ==> Inv(x) in c2.pool && c2.pool[Inv(x)] == c.pool[Inv(x)]
    ensures OpenedOk(c2)
  {
    assert (id, number) !in c.begun;
    NoDuplicatesAppend(c.begun, [(id, number)]);
    forall x: Id, b: nat
      ensures (x, b) in c2.begun <==> (x, b) in c2.fired || (IsLive(c2.pool, x) && c2.pool[Inv(x)].ctx.number == b)
    {
      assert (x, b) in c2.begun <==> (x, b) in c.begun || (x == id && b == number);
    }
  }

  lemma FanOutLive(p: Program, c: Config, env: Envelope, runCounter: nat, batchCounter: nat, born: nat, o: Outcome, c2: Config)
    requires o.RunAll? && c2 == Settle(p, c, env, runCounter, batchCounter, born, o)
    ensures IsLive(c2.pool, env.id) && c2.pool[Inv(env.id)].ctx.number == batchCounter
    ensures forall x :: x != env.id ==> (IsLive(c2.pool, x) <==> IsLive(c.pool, x))
    ensures forall x :: x != env.id && IsLive(c.pool, x) ==> Inv(x) in c2.pool && c2.pool[Inv(x)] == c.pool[Inv(x)]
  {
  }

  lemma FanOutOpened(p: Program, c: Config, env: Envelope, runCounter: nat, batchCounter: nat, born: nat, o: Outcome, c2: Config)
    requires OpenedOk(c) && Settling(c, env.id, runCounter, batchCounter) && o.RunAll?
    requires Inv(env.id) !in c.pool
    requires c2 == Settle(p, c, env, runCounter, batchCounter, born, o)
    ensures OpenedOk(c2)
  {
    FanOutLive(p, c, env, runCounter, batchCounter, born, o, c2);
    OpenedStays(c, env.id, batchCounter, c2);
  }

  lemma SettleOpened(p: Program, c: Config, env: Envelope, runCounter: nat, batchCounter: nat, born: nat, o: Outcome, c2: Config)
    requires OpenedOk(c) && Settling(c, env.id, runCounter, batchCounter)
    requires Inv(env.id) !in c.pool && forall k: Key :: k in c.pool && k.Msg? ==> k.n < c.clock
    requires c2 == Settle(p, c, env, runCounter, batchCounter, born, o)
    ensures OpenedOk(c2)
  {
    if o.RunAll? {
      FanOutOpened(p, c, env, runCounter, batchCounter, born, o, c2);
    } else {
      assert c2.begun == c.begun && c2.fired == c.fired;
      assert forall id :: IsLive(c2.pool, id) <==> IsLive(c.pool, id);
    }
  }

  lemma StartHistory(p: Program, c: Config, k: Key, c2: Config)
    requires KeysOk(c) && IdsUnique(c.pool) && Logged(c) && CanStart(c, k) && c2 == Start(p, c, k)
    ensures Logged(c2)
  {
    var env := c.pool[k].env;
    var c1 := c.(pool := c.pool - {k}, clock := c.clock + 1, consumed := c.consumed + 1);
    StartRemoves(c, k, c1);
    StartOpened(c, k, c1);
    StartSettles(p, c, k, c1);
    SettleHistory(p, c1, env, 0, 0, c.clock, p.handler(env.fn, env.payload), c2);
    SettleOpened(p, c1, env, 0, 0, c.clock, p.handler(env.fn, env.payload), c2);
  }

  lemma StartOpened(c: Config, k: Key, c1: Config)
    requires KeysOk(c) && OpenedOk(c) && CanStart(c, k)
    requires c1 == c.(pool := c.pool - {k}, clock := c.clock + 1, consumed := c.consumed + 1)
    ensures OpenedOk(c1)
  {
    assert k.Msg?;
    assert forall id :: IsLive(c1.pool, id) <==> IsLive(c.pool, id);
  }

  lemma StartRemoves(c: Config, k: Key, c1: Config)
    requires KeysOk(c) && IdsUnique(c.pool) && IssuedOk(c) && FiredOk(c) && CanStart(c, k)
    requires c1 == c.(pool := c.pool - {k}, clock := c.clock + 1, consumed := c.consumed + 1)
    ensures IssuedOk(c1) && FiredOk(c1) && Settling(c1, c.pool[k].env.id, 0, 0)
    ensures Inv(c.pool[k].env.id) !in c1.pool && forall j: Key :: j in c1.pool && j.Msg? ==> j.n < c1.clock
  {
    var id := c.pool[k].env.id;
    assert Bears(c.pool[k], id) && Pending(c.pool, id);
    forall x | Pending(c1.pool, x) ensures Pending(c.pool, x) && x != id {
      var j :| j in c1.pool && c1.pool[j].Invoke? && c1.pool[j].env.id == x;
      assert j in c.pool && Bears(c.pool[j], x);
    }
    forall j | j in c1.pool && c1.pool[j].Live? ensures c1.pool[j].ctx.env.id != id && LiveHistory(c1, c1.pool[j].ctx) {
      assert j in c.pool && Bears(c.pool[j], c.pool[j].ctx.env.id) && LiveHistory(c, c.pool[j].ctx);
    }
  }

  lemma RecordHistory(c: Config, k: Key, ctx: Context, c2: Config)
    requires Recorded(c.pool, k, ctx, c2.pool) && IssuedOk(c) && FiredOk(c)
    requires c2.clock == c.clock && c2.issued == c.issued && c2.fired == c.fired
    ensures IssuedOk(c2) && FiredOk(c2)
  {
    var owner := Inv(c.pool[k].slot.owner);
    forall x | Pending(c2.pool, x) ensures Pending(c.pool, x) {
      var j :| j in c2.pool && c2.pool[j].Invoke? && c2.pool[j].env.id == x;
      assert j in c.pool;
    }
    forall j | j in c2.pool && c2.pool[j].Live? ensures LiveHistory(c2, c2.pool[j].ctx) && c2.pool[j].ctx.env.id in c2.issued {
      assert j in c.pool && LiveHistory(c, c.pool[j].ctx);
    }
  }

  /** Without `k` and the parent `id`, no token bears `id` any more. */
  lemma CloseLeaves(c: Config, k: Key, id: Id, pool1: Pool)
    requires IdsUnique(c.pool) && Inv(id) in c.pool && Bears(c.pool[Inv(id)], id) && c.pool[Inv(id)].Live?
    requires pool1 == c.pool - {k} - {Inv(id)}
    ensures forall j :: j in pool1 ==> j in c.pool && pool1[j] == c.pool[j] && !Bears(pool1[j], id)
    ensures !Pending(c.pool, id) && forall x :: Pending(pool1, x) ==> Pending(c.pool, x)
  {
    forall x | Pending(pool1, x) ensures Pending(c.pool, x) {
      var j :| j in pool1 && pool1[j].Invoke? && pool1[j].env.id == x;
      assert j in c.pool;
    }
    if Pending(c.pool, id) {
      var j :| j in c.pool && c.pool[j].Invoke? && c.pool[j].env.id == id;
      assert Bears(c.pool[j], id);
    }
  }

  lemma CloseFired(c: Config, k: Key, ctx: Context, c1: Config)
    requires FiredOk(c) && IssuedOk(c) && Inv(ctx.env.id) in c.pool && c.pool[Inv(ctx.env.id)] == Live(ctx)
    requires c1.pool == c.pool - {k} - {Inv(ctx.env.id)} && c1.issued == c.issued
    requires c1.fired == c.fired + [(ctx.env.id, ctx.number)]
    requires forall j :: j in c1.pool ==> j in c.pool && c1.pool[j] == c.pool[j] && !Bears(c1.pool[j], ctx.env.id)
    requires !Pending(c.pool, ctx.env.id) && forall x :: Pending(c1.pool, x) ==> Pending(c.pool, x)
    ensures FiredOk(c1) && forall b: nat :: (ctx.env.id, b) in c1.fired <==> b < ctx.batchCounter
  {
    assert LiveHistory(c, ctx);
    NoDuplicatesAppend(c.fired, [(ctx.env.id, ctx.number)]);
    forall j | j in c1.pool && c1.pool[j].Live? ensures LiveHistory(c1, c1.pool[j].ctx) {
      assert LiveHistory(c, c.pool[j].ctx) && !Bears(c1.pool[j], ctx.env.id);
    }
  }

  lemma CloseRemoves(c: Config, k: Key, ctx: Context, c1: Config)
    requires KeysOk(c) && IdsUnique(c.pool) && IssuedOk(c) && FiredOk(c)
    requires k.Msg? && Inv(ctx.env.id) in c.pool && c.pool[Inv(ctx.env.id)] == Live(ctx)
    requires c1.pool == c.pool - {k} - {Inv(ctx.env.id)} && c1.clock == c.clock
    requires c1.issued == c.issued && c1.fired == c.fired + [(ctx.env.id, ctx.number)]
    ensures IssuedOk(c1) && FiredOk(c1) && Settling(c1, ctx.env.id, ctx.runCounter, ctx.batchCounter)
    ensures forall j: Key :: j in c1.pool && j.Msg? ==> j.n < c1.clock
  {
    assert LiveHistory(c, ctx);
    CloseLeaves(c, k, ctx.env.id, c1.pool);
    CloseFired(c, k, ctx, c1);
    forall j | j in c1.pool && c1.pool[j].Live? ensures c1.pool[j].ctx.env.id != ctx.env.id {
      assert !Bears(c1.pool[j], ctx.env.id);
    }
  }

  lemma CloseHistory(p: Program, c: Config, k: Key, ctx: Context, o: Outcome, c1: Config, c2: Config)
    requires KeysOk(c) && IdsUnique(c.pool) && Logged(c)
    requires k.Msg? && Inv(ctx.env.id) in c.pool && c.pool[Inv(ctx.env.id)] == Live(ctx)
    requires c1.pool == c.pool - {k} - {Inv(ctx.env.id)} && c1.clock == c.clock
    requires c1.issued == c.issued && c1.begun == c.begun && c1.fired == c.fired + [(ctx.env.id, ctx.number)]
    requires c2 == Settle(p, c1, ctx.env, ctx.runCounter, ctx.batchCounter, ctx.born, o)
    ensures Logged(c2)
  {
    CloseRemoves(c, k, ctx, c1);
    CloseOpened(c, k, ctx, c1);
    SettleHistory(p, c1, ctx.env, ctx.runCounter, ctx.batchCounter, ctx.born, o, c2);
    SettleOpened(p, c1, ctx.env, ctx.runCounter, ctx.batchCounter, ctx.born, o, c2);
  }

  lemma CloseOpened(c: Config, k: Key, ctx: Context, c1: Config)
    requires OpenedOk(c)
    requires k.Msg? && Inv(ctx.env.id) in c.pool && c.pool[Inv(ctx.env.id)] == Live(ctx)
    requires c1.pool == c.pool - {k} - {Inv(ctx.env.id)}
    requires c1.begun == c.begun && c1.fired == c.fired + [(ctx.env.id, ctx.number)]
    ensures OpenedOk(c1)
  {
    assert forall id :: IsLive(c1.pool, id) <==> IsLive(c.pool, id) && id != ctx.env.id;
  }

  lemma RecordOpened(c: Config, k: Key, ctx: Context, c2: Config)
    requires Recorded(c.pool, k, ctx, c2.pool) && OpenedOk(c)
    requires c2.begun == c.begun && c2.fired == c.fired
    ensures OpenedOk(c2)
  {
    assert forall id :: IsLive(c2.pool, id) <==> IsLive(c.pool, id);
  }

  lemma DeliverHistory(p: Program, c: Config, k: Key, c2: Config)
    requires Conserved(c) && Logged(c) && CanDeliver(c, k) && c2 == Deliver(p, c, k)
    ensures Logged(c2)
  {
    RepliesMatch(c, k);
    var ctx := c.pool[Inv(c.pool[k].slot.owner)].ctx;
    if ctx.batch.pending == 1 {
      DeliverCloses(p, c, k, ctx);
      CloseHistory(p, c, k, ctx, ClosingOutcome(p, c, k, ctx), Closing(c, k, ctx), c2);
    } else {
      DeliverRecords(p, c, k, ctx);
      RecordHistory(c, k, ctx, c2);
      RecordOpened(c, k, ctx, c2);
    }
  }

  lemma {:induction false} PollHistory(p: Program, c: Config, ks: seq<Key>, c2: Config)
    requires p.WellFormed() && Conserved(c) && Logged(c) && c2 == Poll(p, c, ks)
    ensures Logged(c2)
    decreases |ks|
  {
    if ks != [] {
      if CanDeliver(c, ks[0]) {
        var c1 := Deliver(p, c, ks[0]);
        DeliverConserves(p, c, ks[0], c1);
        DeliverHistory(p, c, ks[0], c1);
        PollHistory(p, c1, ks[1..], c2);
      } else {
        PollHistory(p, c, ks[1..], c2);
      }
    }
  }

  lemma StepHistory(p: Program, root: Task, cs: seq<Config>, i: nat, c: Config, c': Config)
    requires p.WellFormed() && IsRun(p, root, cs) && 0 < i < |cs| && c == cs[i - 1] && c' == cs[i]
    requires Logged(c)
    ensures Logged(c')
  {
    assert StepTo(p, cs, i);
    RunConserved(p, root, cs, i - 1);
    if k :| Starts(p, c, k, c') {
      StartHistory(p, c, k, c');
    } else {
      var id, ks :| Polls(p, c, id, ks, c');
      PollHistory(p, c, ks, c');
    }
  }

  lemma InitLogged(root: Task)
    ensures Logged(Init(root))
  {
  }

  lemma {:induction false} RunLogged(p: Program, root: Task, cs: seq<Config>, i: nat)
    requires p.WellFormed() && IsRun(p, root, cs) && i < |cs|
    ensures Logged(cs[i])
    decreases i
  {
    if i == 0 {
      InitLogged(root);
    } else {
      RunLogged(p, root, cs, i - 1);
      StepHistory(p, root, cs, i, cs[i - 1], cs[i]);
    }
  }
}
