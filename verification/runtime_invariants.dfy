// What every step of the crash-free runtime keeps: each unfilled slot is carried by exactly
// one message or live invocation, and the root by exactly one until the run has ended.
module RuntimeInvariants {
  import opened Wrappers
  import opened Programs
  import opened Contexts
  import opened Runtime

  type Pool = map<Key, Token>

  /** The slot a token will fill; `None` stands for the root's. */
  function SlotOf(t: Token): Option<Slot> {
    match t
    case Invoke(env) => env.ret
    case Live(ctx) => ctx.env.ret
    case Reply(_, slot, _) => Some(slot)
  }

  /** The invocation a token is about: pending, live, or answering. */
  function IdOf(t: Token): Id {
    match t
    case Invoke(env) => env.id
    case Live(ctx) => ctx.env.id
    case Reply(from, _, _) => from
  }

  predicate Bears(t: Token, id: Id) {
    IdOf(t) == id
  }

  predicate IsLive(pool: Pool, id: Id) {
    Inv(id) in pool && pool[Inv(id)].Live?
  }

  /** `s` is an unfilled slot of the active batch of a live invocation. */
  predicate Open(pool: Pool, s: Slot) {
    && IsLive(pool, s.owner)
    && var ctx := pool[Inv(s.owner)].ctx;
    && s.batch == ctx.number
    && s.idx < |ctx.batch.results|
    && ctx.batch.results[s.idx].None?
  }

  predicate Carries(pool: Pool, k: Key, s: Option<Slot>) {
    k in pool && SlotOf(pool[k]) == s
  }

  predicate ContextOk(ctx: Context, clock: nat) {
    var n := |ctx.tasks|;
    && n == |ctx.batch.results| == |ctx.batch.childIds|
    && ctx.batch.pending == Missing(ctx.batch.results) > 0
    && ctx.runCounter >= n
    && (forall i :: 0 <= i < n ==> ctx.batch.childIds[i] == Child(ctx.env.id, ctx.runCounter - n + i))
    && ctx.born < clock
  }

  ghost predicate KeysOk(c: Config) {
    && (forall n: nat :: Msg(n) in c.pool ==> n < c.clock && !c.pool[Msg(n)].Live?)
    && (forall id :: Inv(id) in c.pool ==>
          c.pool[Inv(id)].Live? && c.pool[Inv(id)].ctx.env.id == id && ContextOk(c.pool[Inv(id)].ctx, c.clock))
  }

  /** Two tokens never aim at the same slot. */
  ghost predicate SlotsUnique(pool: Pool) {
    forall k, l :: k in pool && l in pool && SlotOf(pool[k]) == SlotOf(pool[l]) ==> k == l
  }

  /** An invocation id is never in use twice, be it to run or to reply. */
  ghost predicate IdsUnique(pool: Pool) {
    forall k, l, id :: k in pool && l in pool && Bears(pool[k], id) && Bears(pool[l], id) ==> k == l
  }

  /** Every token belongs to an unfilled slot of a live, earlier born invocation (or to the root),
      and a child that was not chained runs and replies under the id its parent gave it. */
  predicate OwnedOk(c: Config, k: Key)
    requires k in c.pool
  {
    var t := c.pool[k];
    && (SlotOf(t).Some? ==> Open(c.pool, SlotOf(t).value))
    && (t.Live? && SlotOf(t).Some? ==> c.pool[Inv(SlotOf(t).value.owner)].ctx.born < t.ctx.born)
    && (IdOf(t).Uuid? ==> IdOf(t).n < c.clock)
    && (IdOf(t).Child? ==>
          && SlotOf(t).Some?
          && var slot := SlotOf(t).value;
          && slot.idx < |c.pool[Inv(slot.owner)].ctx.batch.childIds|
          && c.pool[Inv(slot.owner)].ctx.batch.childIds[slot.idx] == IdOf(t))
  }

  ghost predicate Owned(c: Config) {
    forall k {:trigger OwnedOk(c, k)} :: k in c.pool ==> OwnedOk(c, k)
  }

  /** No unfilled slot is ever forgotten. */
  ghost predicate Carried(pool: Pool) {
    forall s :: Open(pool, s) ==> exists k :: Carries(pool, k, Some(s))
  }

  /** The run has ended exactly when nothing carries the root's answer, with one terminal event. */
  ghost predicate EventsOk(c: Config) {
    || (c.events == [] && exists k :: Carries(c.pool, k, None))
    || (|c.events| == 1 && forall k :: !Carries(c.pool, k, None))
  }

  ghost predicate Conserved(c: Config) {
    KeysOk(c) && SlotsUnique(c.pool) && IdsUnique(c.pool) && Owned(c) && Carried(c.pool) && EventsOk(c)
  }

  // ---- Replacing one execution by what its outcome produces ----

  /** `k` is an invoke message, and `c2` is `c` with `t2`, which aims at the same slot, in its place. */
  ghost predicate Swapped(c: Config, k: Key, c2: Config, k2: Key, t2: Token) {
    && Conserved(c)
    && k.Msg? && CanStart(c, k)
    && k2 !in c.pool - {k}
    && c2.pool == (c.pool - {k})[k2 := t2]
    && SlotOf(t2) == SlotOf(c.pool[k])
    && c2.events == c.events && c.clock <= c2.clock
    && (k2.Msg? ==> k2.n < c2.clock)
    && !t2.Live?
    && (t2.Reply? ==> t2.from == c.pool[k].env.id)
    && (t2.Invoke? ==> t2.env.id.Uuid? && t2.env.id.n < c2.clock && forall j :: j in c.pool ==> !Bears(c.pool[j], t2.env.id))
  }

  lemma SwapUnique(c: Config, k: Key, c2: Config, k2: Key, t2: Token)
    requires Swapped(c, k, c2, k2, t2)
    ensures SlotsUnique(c2.pool) && IdsUnique(c2.pool)
  {
  }

  lemma SwapKeys(c: Config, k: Key, c2: Config, k2: Key, t2: Token)
    requires Swapped(c, k, c2, k2, t2)
    requires k2.Msg?
    ensures KeysOk(c2)
  {
  }

  ghost predicate LivesStay(pool: Pool, pool2: Pool) {
    forall id :: IsLive(pool, id) ==> IsLive(pool2, id) && pool2[Inv(id)] == pool[Inv(id)]
  }

  lemma OwnedStays(c: Config, k: Key, c2: Config)
    requires k in c.pool && k in c2.pool && c2.pool[k] == c.pool[k]
    requires OwnedOk(c, k) && c.clock <= c2.clock && LivesStay(c.pool, c2.pool)
    ensures OwnedOk(c2, k)
  {
  }

  lemma SwapOwned(c: Config, k: Key, c2: Config, k2: Key, t2: Token)
    requires Swapped(c, k, c2, k2, t2)
    requires k2.Msg?
    ensures Owned(c2)
  {
    assert LivesStay(c.pool, c2.pool);
    forall j | j in c2.pool ensures OwnedOk(c2, j) {
      if j == k2 { assert OwnedOk(c, k); } else { OwnedStays(c, j, c2); }
    }
  }

  lemma SwapCarried(c: Config, k: Key, c2: Config, k2: Key, t2: Token)
    requires Swapped(c, k, c2, k2, t2)
    requires k2.Msg?
    ensures Carried(c2.pool)
  {
    forall s | Open(c2.pool, s) ensures exists j :: Carries(c2.pool, j, Some(s)) {
      assert Open(c.pool, s);
      var j :| Carries(c.pool, j, Some(s));
      assert Carries(c2.pool, if j == k then k2 else j, Some(s));
    }
  }

  lemma SwapEvents(c: Config, k: Key, c2: Config, k2: Key, t2: Token)
    requires Swapped(c, k, c2, k2, t2)
    ensures EventsOk(c2)
  {
    if c.events == [] {
      var j :| Carries(c.pool, j, None);
      assert Carries(c2.pool, if j == k then k2 else j, None);
    } else {
      assert !Carries(c.pool, k, None);
      forall j ensures !Carries(c2.pool, j, None) {
        assert !Carries(c.pool, j, None);
      }
    }
  }

  // ---- Ending the run ----

  lemma DroppedOwned(c: Config, k: Key, c2: Config)
    requires Owned(c) && k.Msg? && c2.pool == c.pool - {k} && c.clock <= c2.clock
    ensures Owned(c2)
  {
    forall j | j in c2.pool ensures OwnedOk(c2, j) {
      OwnedStays(c, j, c2);
    }
  }

  lemma DroppedCarried(c: Config, k: Key, c2: Config)
    requires Carried(c.pool) && CanStart(c, k) && SlotOf(c.pool[k]).None? && k.Msg? && c2.pool == c.pool - {k}
    ensures Carried(c2.pool)
  {
    forall s | Open(c2.pool, s) ensures exists j :: Carries(c2.pool, j, Some(s)) {
      assert Open(c.pool, s);
      var j :| Carries(c.pool, j, Some(s));
      assert Carries(c2.pool, j, Some(s));
    }
  }

  lemma DroppedUnique(c: Config, k: Key, c2: Config)
    requires KeysOk(c) && SlotsUnique(c.pool) && IdsUnique(c.pool)
    requires c2.pool == c.pool - {k} && c.clock <= c2.clock
    ensures KeysOk(c2) && SlotsUnique(c2.pool) && IdsUnique(c2.pool)
  {
  }

  lemma DroppedEvents(c: Config, k: Key, c2: Config)
    requires EventsOk(c) && SlotsUnique(c.pool) && Carries(c.pool, k, None)
    requires c2.pool == c.pool - {k} && |c2.events| == |c.events| + 1
    ensures EventsOk(c2)
  {
  }

  lemma CloseRoot(c: Config, k: Key, c2: Config)
    requires Conserved(c)
    requires k.Msg? && CanStart(c, k) && SlotOf(c.pool[k]).None?
    requires c2.pool == c.pool - {k} && |c2.events| == |c.events| + 1 && c.clock <= c2.clock
    ensures Conserved(c2)
  {
    DroppedOwned(c, k, c2);
    DroppedCarried(c, k, c2);
    DroppedUnique(c, k, c2);
    assert Carries(c.pool, k, None);
    DroppedEvents(c, k, c2);
  }

  // ---- Fanning out ----

  /** `pool2` is `pool` with the execution `k` replaced by the waiting parent `ctx` and its children. */
  ghost predicate FannedOut(pool: Pool, k: Key, pool2: Pool, ctx: Context, clock: nat) {
    var n := |ctx.tasks|;
    && n == |ctx.batch.childIds| == |ctx.batch.results|
    && k.Msg? && k in pool && pool[k] == Invoke(ctx.env)
    && Inv(ctx.env.id) !in pool
    && Inv(ctx.env.id) in pool2 && pool2[Inv(ctx.env.id)] == Live(ctx)
    && (forall j :: j in pool2 <==>
          || (j in pool && j != k)
          || j == Inv(ctx.env.id)
          || (j.Msg? && clock <= j.n < clock + n))
    && (forall j :: j in pool && j != k ==> pool2[j] == pool[j])
    && (forall j :: j in pool && j.Msg? ==> j.n < clock)
    && (forall j :: j in pool2 && j.Msg? && clock <= j.n ==>
          pool2[j] == Invoke(ChildEnvelope(ctx.env.id, ctx.number, ctx.batch.childIds, ctx.tasks, j.n - clock)))
  }

  /** No live invocation, no slot and no child id of `id` is in use while `id` is only pending. */
  ghost predicate OwnsNothing(pool: Pool, id: Id) {
    && (forall j :: j in pool && SlotOf(pool[j]).Some? ==> SlotOf(pool[j]).value.owner != id)
    && (forall j, m :: j in pool ==> !Bears(pool[j], Child(id, m)))
  }

  lemma PendingOwnsNothing(c: Config, k: Key)
    requires KeysOk(c) && IdsUnique(c.pool) && Owned(c) && k.Msg? && CanStart(c, k)
    ensures Inv(c.pool[k].env.id) !in c.pool
    ensures OwnsNothing(c.pool, c.pool[k].env.id)
  {
    var id := c.pool[k].env.id;
    if Inv(id) in c.pool {
      assert Bears(c.pool[Inv(id)], id) && Bears(c.pool[k], id);
    }
    forall j | j in c.pool && SlotOf(c.pool[j]).Some? ensures SlotOf(c.pool[j]).value.owner != id {
      assert OwnedOk(c, j);
    }
    forall j, m: nat | j in c.pool ensures !Bears(c.pool[j], Child(id, m)) {
      assert OwnedOk(c, j);
    }
  }

  /** The waiting parent of a freshly opened batch: no slot is filled, none is cached. */
  lemma FreshContext(env: Envelope, runCounter: nat, batchCounter: nat, born: nat, o: Outcome, clock: nat)
      returns (ctx: Context)
    requires o.RunAll? && o.tasks != [] && born < clock
    ensures ctx.env == env && ctx.tasks == o.tasks && ctx.born == born
    ensures ContextOk(ctx, clock) && forall i :: 0 <= i < |ctx.tasks| ==> ctx.batch.results[i].None?
    ensures ctx == Context(env, runCounter + |o.tasks|, batchCounter + 1, batchCounter,
                           OpenBatch(env.id, runCounter, |o.tasks|, o.callback, o.state, map[]), born, o.tasks)
  {
    var batch := OpenBatch(env.id, runCounter, |o.tasks|, o.callback, o.state, map[]);
    MissingAll(batch.results);
    ctx := Context(env, runCounter + |o.tasks|, batchCounter + 1, batchCounter, batch, born, o.tasks);
  }

  lemma FanOutShape(c: Config, k: Key, ctx: Context, clock: nat)
    requires KeysOk(c) && Inv(ctx.env.id) !in c.pool
    requires k.Msg? && CanStart(c, k) && c.pool[k].env == ctx.env && c.clock <= clock
    requires |ctx.tasks| == |ctx.batch.childIds| == |ctx.batch.results|
    ensures FannedOut(c.pool, k,
              (c.pool - {k})[Inv(ctx.env.id) := Live(ctx)]
              + Children(ctx.env, ctx.number, ctx.batch.childIds, ctx.tasks, clock, |ctx.tasks|), ctx, clock)
  {
  }

  lemma FanOutKeys(c: Config, k: Key, c2: Config, ctx: Context, clock: nat)
    requires FannedOut(c.pool, k, c2.pool, ctx, clock) && KeysOk(c)
    requires c.clock <= clock && c2.clock == clock + |ctx.tasks| && ContextOk(ctx, c2.clock)
    ensures KeysOk(c2)
  {
  }

  lemma FanOutSlots(pool: Pool, k: Key, pool2: Pool, ctx: Context, clock: nat)
    requires FannedOut(pool, k, pool2, ctx, clock) && SlotsUnique(pool) && OwnsNothing(pool, ctx.env.id)
    ensures SlotsUnique(pool2)
  {
  }

  lemma FanOutIds(pool: Pool, k: Key, pool2: Pool, ctx: Context, clock: nat)
    requires FannedOut(pool, k, pool2, ctx, clock) && IdsUnique(pool) && OwnsNothing(pool, ctx.env.id)
    requires forall i :: 0 <= i < |ctx.tasks| ==> ctx.batch.childIds[i].Child? && ctx.batch.childIds[i].parent == ctx.env.id
    requires forall i, j :: 0 <= i < j < |ctx.tasks| ==> ctx.batch.childIds[i] != ctx.batch.childIds[j]
    ensures IdsUnique(pool2)
  {
  }

  lemma FanOutOwned(c: Config, k: Key, c2: Config, ctx: Context, clock: nat)
    requires FannedOut(c.pool, k, c2.pool, ctx, clock) && Owned(c) && c.clock <= c2.clock
    requires forall i :: 0 <= i < |ctx.tasks| ==> ctx.batch.childIds[i].Child? && ctx.batch.results[i].None?
    requires ctx.env.ret.Some? ==> IsLive(c.pool, ctx.env.ret.value.owner) && c.pool[Inv(ctx.env.ret.value.owner)].ctx.born < ctx.born
    ensures Owned(c2)
  {
    assert LivesStay(c.pool, c2.pool);
    forall j | j in c2.pool ensures OwnedOk(c2, j) {
      if j in c.pool && j != k {
        OwnedStays(c, j, c2);
      } else if j == Inv(ctx.env.id) {
        assert OwnedOk(c, k);
      }
    }
  }

  lemma FanOutCarried(pool: Pool, k: Key, pool2: Pool, ctx: Context, clock: nat)
    requires FannedOut(pool, k, pool2, ctx, clock) && Carried(pool)
    ensures Carried(pool2)
  {
    forall s | Open(pool2, s) ensures exists j :: Carries(pool2, j, Some(s)) {
      if s.owner == ctx.env.id {
        assert Carries(pool2, Msg(clock + s.idx), Some(s));
      } else {
        assert Open(pool, s);
        var j :| Carries(pool, j, Some(s));
        assert Carries(pool2, if j == k then Inv(ctx.env.id) else j, Some(s));
      }
    }
  }

  lemma FanOutEvents(c: Config, k: Key, c2: Config, ctx: Context, clock: nat)
    requires FannedOut(c.pool, k, c2.pool, ctx, clock) && EventsOk(c) && c2.events == c.events
    ensures EventsOk(c2)
  {
    if c.events == [] {
      var j :| Carries(c.pool, j, None);
      assert Carries(c2.pool, if j == k then Inv(ctx.env.id) else j, None);
    } else {
      assert !Carries(c.pool, k, None);
      forall j ensures !Carries(c2.pool, j, None) {
        assert !Carries(c.pool, j, None);
      }
    }
  }

  lemma FanOutConserves(c: Config, k: Key, c2: Config, ctx: Context, clock: nat)
    requires Conserved(c) && FannedOut(c.pool, k, c2.pool, ctx, clock)
    requires c.clock <= clock && c2.clock == clock + |ctx.tasks| && ContextOk(ctx, c2.clock)
    requires c2.events == c.events
    requires forall i :: 0 <= i < |ctx.tasks| ==> ctx.batch.results[i].None?
    requires ctx.env.ret.Some? ==> IsLive(c.pool, ctx.env.ret.value.owner) && c.pool[Inv(ctx.env.ret.value.owner)].ctx.born < ctx.born
    ensures Conserved(c2)
  {
    PendingOwnsNothing(c, k);
    FanOutKeys(c, k, c2, ctx, clock);
    FanOutSlots(c.pool, k, c2.pool, ctx, clock);
    FanOutIds(c.pool, k, c2.pool, ctx, clock);
    FanOutOwned(c, k, c2, ctx, clock);
    FanOutCarried(c.pool, k, c2.pool, ctx, clock);
    FanOutEvents(c, k, c2, ctx, clock);
  }

  lemma SwapConserves(c: Config, k: Key, c2: Config, k2: Key, t2: Token)
    requires Swapped(c, k, c2, k2, t2) && k2.Msg?
    ensures Conserved(c2)
  {
    SwapUnique(c, k, c2, k2, t2);
    SwapKeys(c, k, c2, k2, t2);
    SwapOwned(c, k, c2, k2, t2);
    SwapCarried(c, k, c2, k2, t2);
    SwapEvents(c, k, c2, k2, t2);
  }

  // ---- Settling ----

  lemma FanOutPool(c1: Config, env: Envelope, runCounter: nat, batchCounter: nat, born: nat, o: Outcome, ctx: Context)
    requires o.RunAll?
    requires ctx == Context(env, runCounter + |o.tasks|, batchCounter + 1, batchCounter,
                            OpenBatch(env.id, runCounter, |o.tasks|, o.callback, o.state, map[]), born, o.tasks)
    ensures FanOut(c1, env, runCounter, batchCounter, born, o).pool ==
              c1.pool[Inv(env.id) := Live(ctx)]
              + Children(env, batchCounter, ctx.batch.childIds, o.tasks, c1.clock, |o.tasks|)
  {
  }

  lemma FanOutFits(c: Config, k: Key, c1: Config, env: Envelope,
                   runCounter: nat, batchCounter: nat, born: nat, o: Outcome) returns (ctx: Context)
    requires KeysOk(c) && k.Msg? && CanStart(c, k) && c.pool[k].env == env && Inv(env.id) !in c.pool
    requires c1.pool == c.pool - {k} && c.clock <= c1.clock && born < c1.clock
    requires o.RunAll? && o.tasks != []
    ensures ctx.env == env && ctx.tasks == o.tasks && ctx.born == born
    ensures ContextOk(ctx, c1.clock + |o.tasks|) && forall i :: 0 <= i < |ctx.tasks| ==> ctx.batch.results[i].None?
    ensures FannedOut(c.pool, k, FanOut(c1, env, runCounter, batchCounter, born, o).pool, ctx, c1.clock)
  {
    ctx := FreshContext(env, runCounter, batchCounter, born, o, c1.clock + |o.tasks|);
    FanOutShape(c, k, ctx, c1.clock);
    FanOutPool(c1, env, runCounter, batchCounter, born, o, ctx);
  }

  lemma SettleFanOut(c: Config, k: Key, c1: Config, env: Envelope,
                     runCounter: nat, batchCounter: nat, born: nat, o: Outcome)
    requires Conserved(c) && k.Msg? && CanStart(c, k) && c.pool[k].env == env
    requires c1.pool == c.pool - {k} && c1.events == c.events && c.clock <= c1.clock
    requires born < c1.clock
    requires env.ret.Some? ==> IsLive(c.pool, env.ret.value.owner) && c.pool[Inv(env.ret.value.owner)].ctx.born < born
    requires o.RunAll? && o.tasks != []
    ensures Conserved(FanOut(c1, env, runCounter, batchCounter, born, o))
  {
    PendingOwnsNothing(c, k);
    var ctx := FanOutFits(c, k, c1, env, runCounter, batchCounter, born, o);
    FanOutConserves(c, k, FanOut(c1, env, runCounter, batchCounter, born, o), ctx, c1.clock);
  }

  /** Whatever an execution produces, putting it in place of the execution keeps every slot carried once. */
  lemma SettleConserves(p: Program, c: Config, k: Key, c1: Config, env: Envelope,
                        runCounter: nat, batchCounter: nat, born: nat, o: Outcome, c2: Config)
    requires Conserved(c) && k.Msg? && CanStart(c, k) && c.pool[k].env == env
    requires c1.pool == c.pool - {k} && c1.events == c.events && c.clock <= c1.clock
    requires born < c1.clock
    requires env.ret.Some? ==> IsLive(c.pool, env.ret.value.owner) && c.pool[Inv(env.ret.value.owner)].ctx.born < born
    requires p.Accepts(o) && c2 == Settle(p, c1, env, runCounter, batchCounter, born, o)
    ensures Conserved(c2)
  {
    if o.RunAll? {
      SettleFanOut(c, k, c1, env, runCounter, batchCounter, born, o);
    } else if env.ret.None? && !(o.Next? && o.fn in p.known) {
      CloseRoot(c, k, c2);
    } else {
      forall j | j in c.pool ensures !Bears(c.pool[j], Uuid(c1.clock)) {
        assert OwnedOk(c, j);
      }
      SwapConserves(c, k, c2, Msg(c1.clock), c2.pool[Msg(c1.clock)]);
    }
  }

  // ---- Starting an invocation ----

  lemma PendingFacts(c: Config, k: Key)
    requires KeysOk(c) && Owned(c) && CanStart(c, k)
    ensures k.Msg?
    ensures var ret := c.pool[k].env.ret;
            ret.Some? ==> IsLive(c.pool, ret.value.owner) && c.pool[Inv(ret.value.owner)].ctx.born < c.clock
  {
    assert OwnedOk(c, k);
  }

  lemma StartSettles(p: Program, c: Config, k: Key, c1: Config)
    requires CanStart(c, k)
    requires c1 == c.(pool := c.pool - {k}, clock := c.clock + 1, consumed := c.consumed + 1)
    ensures var env := c.pool[k].env;
            Start(p, c, k) == Settle(p, c1, env, 0, 0, c.clock, p.handler(env.fn, env.payload))
  {
  }

  lemma StartConserves(p: Program, c: Config, k: Key, c': Config)
    requires p.WellFormed() && Conserved(c) && CanStart(c, k) && c' == Start(p, c, k)
    ensures Conserved(c')
  {
    var env := c.pool[k].env;
    PendingFacts(c, k);
    var c1 := c.(pool := c.pool - {k}, clock := c.clock + 1, consumed := c.consumed + 1);
    StartSettles(p, c, k, c1);
    SettleConserves(p, c, k, c1, env, 0, 0, c.clock, p.handler(env.fn, env.payload), c');
  }

  // ---- Recording a reply ----

  /** `pool2` is `pool` after the reply `k` was recorded in its parent `ctx`, which keeps waiting. */
  ghost predicate Recorded(pool: Pool, k: Key, ctx: Context, pool2: Pool) {
    && k.Msg? && k in pool && pool[k].Reply?
    && var slot := pool[k].slot;
    && Open(pool, slot) && pool[Inv(slot.owner)] == Live(ctx)
    && pool2 == (pool - {k})[Inv(slot.owner) := Live(ctx.(batch := Record(ctx.batch, slot.idx, pool[k].res)))]
  }

  lemma RecordedKeys(c: Config, k: Key, ctx: Context, c2: Config)
    requires Recorded(c.pool, k, ctx, c2.pool) && KeysOk(c) && c2.clock == c.clock && ctx.batch.pending > 1
    ensures KeysOk(c2)
  {
    MissingUpdate(ctx.batch.results, c.pool[k].slot.idx, c.pool[k].res);
  }

  lemma RecordedUnique(pool: Pool, k: Key, ctx: Context, pool2: Pool)
    requires Recorded(pool, k, ctx, pool2) && SlotsUnique(pool) && IdsUnique(pool)
    ensures SlotsUnique(pool2) && IdsUnique(pool2)
  {
    var owner := Inv(pool[k].slot.owner);
    assert forall j :: j in pool2 ==> j in pool && SlotOf(pool2[j]) == SlotOf(pool[j]);
    assert forall j, id :: j in pool2 && Bears(pool2[j], id) ==> Bears(pool[j], id);
  }

  lemma RecordedOpen(pool: Pool, k: Key, ctx: Context, pool2: Pool)
    requires Recorded(pool, k, ctx, pool2)
    ensures forall s :: Open(pool2, s) <==> Open(pool, s) && s != pool[k].slot
  {
  }

  lemma RecordedOwned(c: Config, k: Key, ctx: Context, c2: Config)
    requires Recorded(c.pool, k, ctx, c2.pool) && SlotsUnique(c.pool) && Owned(c) && c2.clock == c.clock
    ensures Owned(c2)
  {
    RecordedOpen(c.pool, k, ctx, c2.pool);
    forall j | j in c2.pool ensures OwnedOk(c2, j) {
      assert OwnedOk(c, j);
      assert SlotOf(c2.pool[j]) == SlotOf(c.pool[j]);
    }
  }

  lemma RecordedCarried(pool: Pool, k: Key, ctx: Context, pool2: Pool)
    requires Recorded(pool, k, ctx, pool2) && Carried(pool)
    ensures Carried(pool2)
  {
    RecordedOpen(pool, k, ctx, pool2);
    forall s | Open(pool2, s) ensures exists j :: Carries(pool2, j, Some(s)) {
      var j :| Carries(pool, j, Some(s));
      assert Carries(pool2, j, Some(s));
    }
  }

  lemma RecordedEvents(c: Config, k: Key, ctx: Context, c2: Config)
    requires Recorded(c.pool, k, ctx, c2.pool) && EventsOk(c) && c2.events == c.events
    ensures EventsOk(c2)
  {
    if c.events == [] {
      var j :| Carries(c.pool, j, None);
      assert Carries(c2.pool, j, None);
    } else {
      forall j ensures !Carries(c2.pool, j, None) {
        assert !Carries(c.pool, j, None);
      }
    }
  }

  lemma RecordConserves(c: Config, k: Key, ctx: Context, c2: Config)
    requires Recorded(c.pool, k, ctx, c2.pool) && Conserved(c) && ctx.batch.pending > 1
    requires c2.clock == c.clock && c2.events == c.events
    ensures Conserved(c2)
  {
    RecordedKeys(c, k, ctx, c2);
    RecordedUnique(c.pool, k, ctx, c2.pool);
    RecordedOwned(c, k, ctx, c2);
    RecordedCarried(c.pool, k, ctx, c2.pool);
    RecordedEvents(c, k, ctx, c2);
  }

  // ---- The last reply: the parent is again a single execution, whose callback is about to run ----

  /** `pool2` is `pool` with the parent `ctx` of the last reply `k` reduced to a pending execution at `k`. */
  ghost predicate Reduced(pool: Pool, k: Key, ctx: Context, pool2: Pool) {
    && k.Msg? && k in pool && pool[k].Reply?
    && var slot := pool[k].slot;
    && Open(pool, slot) && pool[Inv(slot.owner)] == Live(ctx)
    && pool2 == (pool - {k, Inv(slot.owner)})[k := Invoke(ctx.env)]
  }

  lemma OnlyOpenSlot(rs: seq<Option<Result>>, idx: nat, r: Result)
    requires idx < |rs| && rs[idx].None? && Missing(rs) == 1
    ensures forall i :: 0 <= i < |rs| && i != idx ==> rs[i].Some?
  {
    MissingUpdate(rs, idx, r);
    MissingZero(rs[idx := Some(r)]);
    assert forall i :: 0 <= i < |rs| && i != idx ==> rs[i] == rs[idx := Some(r)][i];
  }

  lemma ReducedNotOwned(c: Config, k: Key, ctx: Context, pool2: Pool)
    requires KeysOk(c) && SlotsUnique(c.pool) && Owned(c) && Reduced(c.pool, k, ctx, pool2)
    requires ctx.batch.pending == 1
    ensures forall j :: j in c.pool && j != k && SlotOf(c.pool[j]).Some? ==> SlotOf(c.pool[j]).value.owner != ctx.env.id
  {
    assert ContextOk(ctx, c.clock);
    OnlyOpenSlot(ctx.batch.results, c.pool[k].slot.idx, c.pool[k].res);
    forall j | j in c.pool && j != k && SlotOf(c.pool[j]).Some?
      ensures SlotOf(c.pool[j]).value.owner != ctx.env.id
    {
      assert OwnedOk(c, j);
    }
  }

  lemma ReducedUnique(c: Config, k: Key, ctx: Context, c2: Config)
    requires Reduced(c.pool, k, ctx, c2.pool) && KeysOk(c) && SlotsUnique(c.pool) && IdsUnique(c.pool)
    requires c2.clock == c.clock
    ensures KeysOk(c2) && SlotsUnique(c2.pool) && IdsUnique(c2.pool)
  {
    var owner := Inv(c.pool[k].slot.owner);
    assert forall j :: j in c2.pool && j != k ==> j in c.pool && j != owner && c2.pool[j] == c.pool[j];
    assert SlotOf(c2.pool[k]) == SlotOf(c.pool[owner]);
    assert forall id :: Bears(c2.pool[k], id) ==> Bears(c.pool[owner], id);
  }

  lemma ReducedOwned(c: Config, k: Key, ctx: Context, c2: Config)
    requires Reduced(c.pool, k, ctx, c2.pool) && Owned(c) && KeysOk(c) && c2.clock == c.clock
    requires forall j :: j in c.pool && j != k && SlotOf(c.pool[j]).Some? ==> SlotOf(c.pool[j]).value.owner != ctx.env.id
    ensures Owned(c2)
  {
    var owner := Inv(c.pool[k].slot.owner);
    forall j | j in c2.pool ensures OwnedOk(c2, j) {
      assert OwnedOk(c, if j == k then owner else j);
    }
  }

  lemma ReducedCarried(pool: Pool, k: Key, ctx: Context, pool2: Pool)
    requires Reduced(pool, k, ctx, pool2) && Carried(pool)
    ensures Carried(pool2)
  {
    var owner := Inv(pool[k].slot.owner);
    forall s | Open(pool2, s) ensures exists j :: Carries(pool2, j, Some(s)) {
      assert Open(pool, s);
      var j :| Carries(pool, j, Some(s));
      assert Carries(pool2, if j == owner then k else j, Some(s));
    }
  }

  lemma ReducedEvents(c: Config, k: Key, ctx: Context, c2: Config)
    requires Reduced(c.pool, k, ctx, c2.pool) && EventsOk(c) && c2.events == c.events
    ensures EventsOk(c2)
  {
    var owner := Inv(c.pool[k].slot.owner);
    if c.events == [] {
      var j :| Carries(c.pool, j, None);
      assert Carries(c2.pool, if j == owner then k else j, None);
    } else {
      assert !Carries(c.pool, owner, None);
      forall j ensures !Carries(c2.pool, j, None) {
        assert !Carries(c.pool, j, None);
      }
    }
  }

  lemma ReduceConserves(c: Config, k: Key, ctx: Context, c2: Config)
    requires Reduced(c.pool, k, ctx, c2.pool) && Conserved(c) && ctx.batch.pending == 1
    requires c2.clock == c.clock && c2.events == c.events
    ensures Conserved(c2)
  {
    ReducedNotOwned(c, k, ctx, c2.pool);
    ReducedUnique(c, k, ctx, c2);
    ReducedOwned(c, k, ctx, c2);
    ReducedCarried(c.pool, k, ctx, c2.pool);
    ReducedEvents(c, k, ctx, c2);
  }

  // ---- Delivery ----

  /** In a conserved state a reply always finds its batch, with its slot still empty. */
  lemma RepliesMatch(c: Config, k: Key)
    requires Conserved(c) && k in c.pool && c.pool[k].Reply?
    ensures k.Msg? && Open(c.pool, c.pool[k].slot) && CanDeliver(c, k)
    ensures ContextOk(c.pool[Inv(c.pool[k].slot.owner)].ctx, c.clock)
    ensures c.pool[Inv(c.pool[k].slot.owner)].ctx.env.id == c.pool[k].slot.owner
  {
    assert OwnedOk(c, k);
  }

  lemma ReducedFacts(c: Config, k: Key, ctx: Context, pool2: Pool)
    requires Reduced(c.pool, k, ctx, pool2) && Owned(c) && KeysOk(c)
    ensures ctx.env.ret.Some? ==>
              IsLive(pool2, ctx.env.ret.value.owner) && pool2[Inv(ctx.env.ret.value.owner)].ctx.born < ctx.born
    ensures ctx.born < c.clock
    ensures (c.pool - {k} - {Inv(c.pool[k].slot.owner)}) == pool2 - {k}
  {
    assert OwnedOk(c, Inv(c.pool[k].slot.owner));
  }

  lemma LastDeliveryConserves(p: Program, c: Config, k: Key, c1: Config, ctx: Context, o: Outcome, c': Config)
    requires Conserved(c) && k in c.pool && c.pool[k].Reply?
    requires CanDeliver(c, k) && c.pool[Inv(c.pool[k].slot.owner)] == Live(ctx) && ctx.batch.pending == 1
    requires c1.pool == c.pool - {k} - {Inv(c.pool[k].slot.owner)} && c1.events == c.events && c1.clock == c.clock
    requires p.Accepts(o) && c' == Settle(p, c1, ctx.env, ctx.runCounter, ctx.batchCounter, ctx.born, o)
    ensures Conserved(c')
  {
    RepliesMatch(c, k);
    var owner := Inv(c.pool[k].slot.owner);
    var c2 := c.(pool := (c.pool - {k, owner})[k := Invoke(ctx.env)]);
    ReduceConserves(c, k, ctx, c2);
    ReducedFacts(c, k, ctx, c2.pool);
    SettleConserves(p, c2, k, c1, ctx.env, ctx.runCounter, ctx.batchCounter, ctx.born, o, c');
  }

  /** A reply that leaves slots unfilled only updates its parent. */
  lemma DeliverRecords(p: Program, c: Config, k: Key, ctx: Context)
    requires CanDeliver(c, k) && c.pool[Inv(c.pool[k].slot.owner)] == Live(ctx)
    requires ctx.batch.results[c.pool[k].slot.idx].None?
    requires ctx.batch.pending == Missing(ctx.batch.results) > 1
    ensures var c2 := Deliver(p, c, k);
            && c2 == c.(pool := c2.pool, consumed := c.consumed + 1)
            && (k.Msg? ==> Recorded(c.pool, k, ctx, c2.pool))
  {
    ClosesWhenFull(ctx.batch, c.pool[k].slot.idx, c.pool[k].res);
  }

  /** What the callback of `ctx` returns once `k`, the last reply, is in. */
  function ClosingOutcome(p: Program, c: Config, k: Key, ctx: Context): Outcome
    requires k in c.pool && c.pool[k].Reply? && c.pool[k].slot.idx < |ctx.batch.results|
    requires forall i :: 0 <= i < |ctx.batch.results| && i != c.pool[k].slot.idx ==> ctx.batch.results[i].Some?
  {
    p.callback(ctx.env.fn, ctx.batch.callback,
               Filled(Record(ctx.batch, c.pool[k].slot.idx, c.pool[k].res).results), ctx.batch.state)
  }

  function Closing(c: Config, k: Key, ctx: Context): Config
    requires k in c.pool && c.pool[k].Reply?
  {
    var owner := c.pool[k].slot.owner;
    c.(pool := c.pool - {k} - {Inv(owner)}, consumed := c.consumed + 1, fired := c.fired + [(owner, ctx.number)])
  }

  /** The last reply closes the batch, and the parent goes on with what its callback returns. */
  lemma DeliverCloses(p: Program, c: Config, k: Key, ctx: Context)
    requires CanDeliver(c, k) && c.pool[Inv(c.pool[k].slot.owner)] == Live(ctx)
    requires ctx.batch.results[c.pool[k].slot.idx].None?
    requires ctx.batch.pending == Missing(ctx.batch.results) == 1
    ensures forall i :: 0 <= i < |ctx.batch.results| && i != c.pool[k].slot.idx ==> ctx.batch.results[i].Some?
    ensures Deliver(p, c, k) ==
              Settle(p, Closing(c, k, ctx), ctx.env, ctx.runCounter, ctx.batchCounter, ctx.born, ClosingOutcome(p, c, k, ctx))
  {
    OnlyOpenSlot(ctx.batch.results, c.pool[k].slot.idx, c.pool[k].res);
    ClosesWhenFull(ctx.batch, c.pool[k].slot.idx, c.pool[k].res);
  }

  lemma DeliverConserves(p: Program, c: Config, k: Key, c': Config)
    requires p.WellFormed() && Conserved(c) && CanDeliver(c, k) && c' == Deliver(p, c, k)
    ensures Conserved(c')
  {
    RepliesMatch(c, k);
    var ctx := c.pool[Inv(c.pool[k].slot.owner)].ctx;
    if ctx.batch.pending == 1 {
      DeliverCloses(p, c, k, ctx);
      LastDeliveryConserves(p, c, k, Closing(c, k, ctx), ctx, ClosingOutcome(p, c, k, ctx), c');
    } else {
      DeliverRecords(p, c, k, ctx);
      RecordConserves(c, k, ctx, c');
    }
  }

  lemma {:induction false} PollConserves(p: Program, c: Config, ks: seq<Key>)
    requires p.WellFormed() && Conserved(c)
    ensures Conserved(Poll(p, c, ks))
    decreases |ks|
  {
    if ks != [] {
      if CanDeliver(c, ks[0]) {
        DeliverConserves(p, c, ks[0], Deliver(p, c, ks[0]));
        PollConserves(p, Deliver(p, c, ks[0]), ks[1..]);
      } else {
        PollConserves(p, c, ks[1..]);
      }
    }
  }

  lemma InitConserved(root: Task)
    ensures Conserved(Init(root))
  {
    assert Carries(Init(root).pool, Msg(0), None);
  }

  lemma StepConserves(p: Program, c: Config, c': Config)
    requires p.WellFormed() && Conserved(c) && Step(p, c, c')
    ensures Conserved(c')
  {
    if k :| Starts(p, c, k, c') {
      StartConserves(p, c, k, c');
    } else {
      var id, ks :| Polls(p, c, id, ks, c');
      PollConserves(p, c, ks);
    }
  }

  lemma {:induction false} RunConserved(p: Program, root: Task, cs: seq<Config>, i: nat)
    requires p.WellFormed() && IsRun(p, root, cs) && i < |cs|
    ensures Conserved(cs[i])
    decreases i
  {
    if i == 0 {
      InitConserved(root);
    } else {
      RunConserved(p, root, cs, i - 1);
      assert StepTo(p, cs, i);
      StepConserves(p, cs[i - 1], cs[i]);
    }
  }
}
