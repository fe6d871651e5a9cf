// The runtime's live invocations are context objects: every fan-out and every recorded reply of the
// step system is what `runAll` and the poller do to the context of that invocation.
module RuntimeContexts {
  import opened Wrappers
  import opened Programs
  import opened Contexts
  import opened Runtime
  import opened RuntimeInvariants
  import F = FnContext
  import R = Recovery

  /** The context of a first invocation that has no batch waiting. */
  predicate Idle(s: F.State, known: set<Name>, id: Id, runCounter: nat, batchCounter: nat) {
    && s.id == id && s.known == known && !s.restored && s.cached == map[]
    && s.runCounter == runCounter && s.batchCounter == batchCounter && s.batches == map[]
  }

  /** The context of a first invocation that waits as `ctx` does. */
  predicate Waits(s: F.State, known: set<Name>, ctx: Context) {
    && s.id == ctx.env.id && s.known == known && !s.restored && s.cached == map[]
    && s.runCounter == ctx.runCounter && s.batchCounter == ctx.batchCounter
    && s.batches == map[ctx.number := ctx.batch] && s.queuesOpen
  }

  lemma FreshBatch(known: set<Name>, b: Batch, tasks: seq<Task>, owner: Id, number: nat)
    requires |tasks| == |b.results| == |b.childIds| && tasks != [] && b.pending == Missing(b.results)
    requires forall i :: 0 <= i < |tasks| ==> b.results[i].None? && tasks[i].fn in known
    ensures b.pending == |tasks| && F.StartedWith(known, b, tasks) == F.Waiting
    ensures var sent := F.InvitationsFor(known, owner, number, b, tasks);
            |sent| == |tasks| && forall i :: 0 <= i < |tasks| ==> sent[i] == ChildEnvelope(owner, number, b.childIds, tasks, i)
  {
    var idxs := F.Unfilled(b.results, |tasks|);
    MissingAll(b.results);
    F.AllUnfilled(b.results, |tasks|);
    F.AllInvitedInOrder(known, owner, number, b.childIds, tasks, idxs);
    F.FirstUnknownExact(known, tasks, idxs);
  }

  /** `runAll` on an idle context: everybody is invited and the batch waits. */
  lemma RunAllOnIdle(s: F.State, known: set<Name>, id: Id, runCounter: nat, batchCounter: nat, o: Outcome, b: Batch, s2: F.State)
    requires o.RunAll? && o.tasks != [] && (forall i :: 0 <= i < |o.tasks| ==> o.tasks[i].fn in known)
    requires Idle(s, known, id, runCounter, batchCounter) && s2 == F.RunAllState(s, o.tasks, o.callback, o.state)
    requires b == OpenBatch(id, runCounter, |o.tasks|, o.callback, o.state, map[])
    ensures F.StartedBy(s, o.tasks, o.callback, o.state) == F.Waiting
    ensures s2.id == id && s2.known == known && !s2.restored && s2.cached == map[] && s2.queuesOpen
    ensures s2.runCounter == runCounter + |o.tasks| && s2.batchCounter == batchCounter + 1 && s2.batches == map[batchCounter := b]
    ensures s2.sent == s.sent + F.InvitationsFor(known, id, batchCounter, b, o.tasks)
  {
    FreshBatch(known, b, o.tasks, id, batchCounter);
    assert s.batches[batchCounter := b] == map[batchCounter := b];
  }

  /** The messages numbered from `clock` on carry these invitations. */
  predicate Posted(pool: Pool, clock: nat, envelopes: seq<Envelope>) {
    forall i :: 0 <= i < |envelopes| ==> Msg(clock + i) in pool && pool[Msg(clock + i)] == Invoke(envelopes[i])
  }

  lemma KidPosted(env: Envelope, number: nat, ids: seq<Id>, tasks: seq<Task>, clock: nat, i: nat)
    requires i < |tasks| == |ids|
    ensures var kids := Children(env, number, ids, tasks, clock, |tasks|);
            Msg(clock + i) in kids && kids[Msg(clock + i)] == Invoke(ChildEnvelope(env.id, number, ids, tasks, i))
  {
    assert Msg(clock + i).n - clock == i;
  }

  lemma KidsPosted(env: Envelope, number: nat, ids: seq<Id>, tasks: seq<Task>, clock: nat, before: Pool, pool: Pool, sent: seq<Envelope>)
    requires |tasks| == |ids| == |sent| && pool == before + Children(env, number, ids, tasks, clock, |tasks|)
    requires forall i :: 0 <= i < |tasks| ==> sent[i] == ChildEnvelope(env.id, number, ids, tasks, i)
    ensures Posted(pool, clock, sent)
  {
    forall i | 0 <= i < |sent| ensures Msg(clock + i) in pool && pool[Msg(clock + i)] == Invoke(sent[i]) {
      KidPosted(env, number, ids, tasks, clock, i);
    }
  }

  lemma FanOutPosts(p: Program, c: Config, env: Envelope, runCounter: nat, batchCounter: nat, born: nat, o: Outcome, b: Batch, c2: Config)
    requires o.RunAll? && p.Accepts(o) && c2 == FanOut(c, env, runCounter, batchCounter, born, o)
    requires b == OpenBatch(env.id, runCounter, |o.tasks|, o.callback, o.state, map[])
    ensures IsLive(c2.pool, env.id)
    ensures c2.pool[Inv(env.id)].ctx == Context(env, runCounter + |o.tasks|, batchCounter + 1, batchCounter, b, born, o.tasks)
    ensures Posted(c2.pool, c.clock, F.InvitationsFor(p.known, env.id, batchCounter, b, o.tasks))
  {
    var ctx := Context(env, runCounter + |o.tasks|, batchCounter + 1, batchCounter, b, born, o.tasks);
    FreshBatch(p.known, b, o.tasks, env.id, batchCounter);
    KidsPosted(env, batchCounter, b.childIds, o.tasks, c.clock, c.pool[Inv(env.id) := Live(ctx)], c2.pool,
               F.InvitationsFor(p.known, env.id, batchCounter, b, o.tasks));
  }

  /** A fan-out of the step system is `runAll` on the context, and its new messages are the invitations sent. */
  lemma FanOutIsRunAll(p: Program, c: Config, env: Envelope, runCounter: nat, batchCounter: nat, born: nat, o: Outcome,
                       s: F.State, s2: F.State, c2: Config)
    requires o.RunAll? && p.Accepts(o) && Idle(s, p.known, env.id, runCounter, batchCounter)
    requires c2 == FanOut(c, env, runCounter, batchCounter, born, o) && s2 == F.RunAllState(s, o.tasks, o.callback, o.state)
    ensures F.StartedBy(s, o.tasks, o.callback, o.state) == F.Waiting
    ensures IsLive(c2.pool, env.id) && c2.pool[Inv(env.id)].ctx.env == env && Waits(s2, p.known, c2.pool[Inv(env.id)].ctx)
    ensures s.sent <= s2.sent && Posted(c2.pool, c.clock, s2.sent[|s.sent|..])
  {
    var b := OpenBatch(env.id, runCounter, |o.tasks|, o.callback, o.state, map[]);
    RunAllOnIdle(s, p.known, env.id, runCounter, batchCounter, o, b, s2);
    FanOutPosts(p, c, env, runCounter, batchCounter, born, o, b, c2);
    assert s2.sent[|s.sent|..] == F.InvitationsFor(p.known, env.id, batchCounter, b, o.tasks);
  }

  function MatchedOf(t: Token): F.Matched
    requires t.Reply?
  {
    F.Matched(t.slot.batch, t.slot.idx, t.from, t.res)
  }

  /** Recording a reply that is not the last one is what the poller does to the context. */
  lemma DeliverIsRecord(p: Program, c: Config, k: Key, ctx: Context, s: F.State, s2: F.State, c2: Config)
    requires CanDeliver(c, k) && c.pool[Inv(c.pool[k].slot.owner)] == Live(ctx) && Waits(s, p.known, ctx)
    requires k.Msg? && c.pool[k].slot.owner == ctx.env.id
    requires ctx.batch.results[c.pool[k].slot.idx].None? && ctx.batch.pending == Missing(ctx.batch.results) > 1
    requires c2 == Deliver(p, c, k) && s2 == F.RecordAll(F.EnsureInbox(s), [MatchedOf(c.pool[k])])
    ensures F.ClosedBy(F.EnsureInbox(s), [MatchedOf(c.pool[k])]) == []
    ensures IsLive(c2.pool, ctx.env.id) && Waits(s2, p.known, c2.pool[Inv(ctx.env.id)].ctx)
  {
    var m := MatchedOf(c.pool[k]);
    OneRecorded(s, m, ctx.number, ctx.batch);
    DeliverRecords(p, c, k, ctx);
  }

  lemma OneRecorded(s: F.State, m: F.Matched, number: nat, batch: Batch)
    requires s.queuesOpen && s.batches == map[number := batch] && m.number == number && m.idx < |batch.results|
    ensures F.Matches(s, m) && F.RecordAll(F.EnsureInbox(s), [m]) == F.RecordState(s, m)
    ensures F.ClosedBy(F.EnsureInbox(s), [m]) == if batch.pending == 1 then [Record(batch, m.idx, m.res)] else []
    ensures F.RecordState(s, m).batches == if batch.pending == 1 then map[] else map[number := Record(batch, m.idx, m.res)]
  {
    assert [m][..0] == [];
    assert F.RecordAll(s, []) == s && F.ClosedBy(s, []) == [];
    assert s.batches[number := Record(batch, m.idx, m.res)] == map[number := Record(batch, m.idx, m.res)];
    assert map[number := Record(batch, m.idx, m.res)] - {number} == map[];
  }

  /** The last reply leaves the context idle and closes the batch whose callback decides how the
      invocation goes on. */
  lemma DeliverIsClose(p: Program, c: Config, k: Key, ctx: Context, s: F.State, s2: F.State)
    requires CanDeliver(c, k) && c.pool[Inv(c.pool[k].slot.owner)] == Live(ctx) && Waits(s, p.known, ctx)
    requires ctx.batch.results[c.pool[k].slot.idx].None? && ctx.batch.pending == Missing(ctx.batch.results) == 1
    requires s2 == F.RecordAll(F.EnsureInbox(s), [MatchedOf(c.pool[k])])
    ensures F.ClosedBy(F.EnsureInbox(s), [MatchedOf(c.pool[k])]) == [Record(ctx.batch, c.pool[k].slot.idx, c.pool[k].res)]
    ensures forall i :: 0 <= i < |ctx.batch.results| && i != c.pool[k].slot.idx ==> ctx.batch.results[i].Some?
    ensures Idle(s2, p.known, ctx.env.id, ctx.runCounter, ctx.batchCounter)
    ensures Deliver(p, c, k) ==
              Settle(p, Closing(c, k, ctx), ctx.env, ctx.runCounter, ctx.batchCounter, ctx.born, ClosingOutcome(p, c, k, ctx))
  {
    OneRecorded(s, MatchedOf(c.pool[k]), ctx.number, ctx.batch);
    DeliverCloses(p, c, k, ctx);
  }

  // ---- Whole runs ----

  predicate Crashless(ops: seq<R.Op>) {
    forall i :: 0 <= i < |ops| ==> !ops[i].Crash?
  }

  ghost predicate BecomesIdle(known: set<Name>, id: Id, runCounter: nat, batchCounter: nat, ops: seq<R.Op>) {
    Crashless(ops) && Idle(R.History(id, known, ops), known, id, runCounter, batchCounter)
  }

  ghost predicate BecomesWaiting(known: set<Name>, ctx: Context, ops: seq<R.Op>) {
    Crashless(ops) && Waits(R.History(ctx.env.id, known, ops), known, ctx)
  }

  /** Fan-outs and poll iterations alone bring a new context object into the state of `ctx`. */
  ghost predicate HasObject(known: set<Name>, ctx: Context) {
    exists ops :: BecomesWaiting(known, ctx, ops)
  }

  ghost predicate Mirrored(known: set<Name>, pool: Pool) {
    forall k {:trigger k in pool} :: k in pool && pool[k].Live? ==> HasObject(known, pool[k].ctx)
  }

  lemma HistoryStep(id: Id, known: set<Name>, ops: seq<R.Op>, op: R.Op)
    ensures R.History(id, known, ops + [op]) == R.Apply(R.History(id, known, ops), op)
    ensures Crashless(ops) && !op.Crash? ==> Crashless(ops + [op])
  {
    assert (ops + [op])[..|ops + [op]| - 1] == ops;
  }

  /** Every live invocation other than `id` was there before. */
  ghost predicate NewOnly(pool: Pool, pool2: Pool, id: Id) {
    forall k {:trigger k in pool2} :: k in pool2 && pool2[k].Live? && k != Inv(id) ==> k in pool && pool2[k] == pool[k]
  }

  lemma MirroredWith(known: set<Name>, pool: Pool, pool2: Pool, id: Id)
    requires Mirrored(known, pool) && NewOnly(pool, pool2, id)
    requires IsLive(pool2, id) ==> HasObject(known, pool2[Inv(id)].ctx)
    ensures Mirrored(known, pool2)
  {
  }

  lemma FanOutMirrored(p: Program, c: Config, env: Envelope, runCounter: nat, batchCounter: nat, born: nat, o: Outcome,
                       ops: seq<R.Op>, c2: Config)
    requires o.RunAll? && p.Accepts(o) && BecomesIdle(p.known, env.id, runCounter, batchCounter, ops)
    requires c2 == FanOut(c, env, runCounter, batchCounter, born, o)
    ensures IsLive(c2.pool, env.id) && HasObject(p.known, c2.pool[Inv(env.id)].ctx)
  {
    var s := R.History(env.id, p.known, ops);
    var op := R.Fan(o.tasks, o.callback, o.state);
    FanOutIsRunAll(p, c, env, runCounter, batchCounter, born, o, s, R.Apply(s, op), c2);
    HistoryStep(env.id, p.known, ops, op);
    assert BecomesWaiting(p.known, c2.pool[Inv(env.id)].ctx, ops + [op]);
  }

  lemma FanOutNewOnly(c: Config, env: Envelope, runCounter: nat, batchCounter: nat, born: nat, o: Outcome, c2: Config)
    requires o.RunAll? && c2 == FanOut(c, env, runCounter, batchCounter, born, o)
    ensures NewOnly(c.pool, c2.pool, env.id)
  {
  }

  lemma SettledNewOnly(p: Program, c: Config, env: Envelope, runCounter: nat, batchCounter: nat, born: nat, o: Outcome, c2: Config)
    requires !o.RunAll? && c2 == Settle(p, c, env, runCounter, batchCounter, born, o)
    ensures forall k :: k in c2.pool && c2.pool[k].Live? ==> k in c.pool && c2.pool[k] == c.pool[k]
  {
  }

  lemma SettleMirrored(p: Program, c: Config, env: Envelope, runCounter: nat, batchCounter: nat, born: nat, o: Outcome,
                       ops: seq<R.Op>, c2: Config)
    requires p.Accepts(o) && Mirrored(p.known, c.pool) && BecomesIdle(p.known, env.id, runCounter, batchCounter, ops)
    requires c2 == Settle(p, c, env, runCounter, batchCounter, born, o)
    ensures Mirrored(p.known, c2.pool)
  {
    if o.RunAll? {
      FanOutMirrored(p, c, env, runCounter, batchCounter, born, o, ops, c2);
      FanOutNewOnly(c, env, runCounter, batchCounter, born, o, c2);
      MirroredWith(p.known, c.pool, c2.pool, env.id);
    } else {
      SettledNewOnly(p, c, env, runCounter, batchCounter, born, o, c2);
    }
  }

  lemma NewIsIdle(known: set<Name>, id: Id)
    ensures BecomesIdle(known, id, 0, 0, [])
  {
  }

  lemma FewerMirrored(known: set<Name>, pool: Pool, k: Key, pool2: Pool)
    requires Mirrored(known, pool) && pool2 == pool - {k}
    ensures Mirrored(known, pool2)
  {
  }

  lemma StartMirrored(p: Program, c: Config, k: Key, o: Outcome, c2: Config)
    requires Mirrored(p.known, c.pool) && CanStart(c, k) && c2 == Start(p, c, k)
    requires o == p.handler(c.pool[k].env.fn, c.pool[k].env.payload) && p.Accepts(o)
    ensures Mirrored(p.known, c2.pool)
  {
    var env := c.pool[k].env;
    var c1 := c.(pool := c.pool - {k}, clock := c.clock + 1, consumed := c.consumed + 1);
    FewerMirrored(p.known, c.pool, k, c1.pool);
    NewIsIdle(p.known, env.id);
    SettleMirrored(p, c1, env, 0, 0, c.clock, o, [], c2);
  }

  lemma DeliverMirrored(p: Program, c: Config, k: Key, c2: Config)
    requires p.WellFormed() && Conserved(c) && Mirrored(p.known, c.pool) && CanDeliver(c, k) && c2 == Deliver(p, c, k)
    ensures Mirrored(p.known, c2.pool)
  {
    RepliesMatch(c, k);
    var ctx := c.pool[Inv(c.pool[k].slot.owner)].ctx;
    assert HasObject(p.known, ctx);
    var ops :| BecomesWaiting(p.known, ctx, ops);
    DeliverMirrorsOne(p, c, k, ctx, ops, c2);
  }

  lemma CloseMirrored(p: Program, c: Config, k: Key, ctx: Context, ops: seq<R.Op>, o: Outcome, c2: Config)
    requires Mirrored(p.known, c.pool) && CanDeliver(c, k) && c2 == Deliver(p, c, k)
    requires c.pool[Inv(c.pool[k].slot.owner)] == Live(ctx) && ctx.env.id == c.pool[k].slot.owner
    requires ctx.batch.results[c.pool[k].slot.idx].None? && ctx.batch.pending == Missing(ctx.batch.results) == 1
    requires forall i :: 0 <= i < |ctx.batch.results| && i != c.pool[k].slot.idx ==> ctx.batch.results[i].Some?
    requires BecomesWaiting(p.known, ctx, ops) && o == ClosingOutcome(p, c, k, ctx) && p.Accepts(o)
    ensures Mirrored(p.known, c2.pool)
  {
    var s := R.History(ctx.env.id, p.known, ops);
    var op := R.Receive([MatchedOf(c.pool[k])]);
    var c1 := Closing(c, k, ctx);
    HistoryStep(ctx.env.id, p.known, ops, op);
    DeliverIsClose(p, c, k, ctx, s, R.Apply(s, op));
    FewerMirrored(p.known, c.pool, k, c.pool - {k});
    FewerMirrored(p.known, c.pool - {k}, Inv(ctx.env.id), c1.pool);
    SettleMirrored(p, c1, ctx.env, ctx.runCounter, ctx.batchCounter, ctx.born, o, ops + [op], c2);
  }

  lemma RecordMirrored(p: Program, c: Config, k: Key, ctx: Context, ops: seq<R.Op>, c2: Config)
    requires Mirrored(p.known, c.pool) && CanDeliver(c, k) && c2 == Deliver(p, c, k) && k.Msg?
    requires c.pool[Inv(c.pool[k].slot.owner)] == Live(ctx) && ctx.env.id == c.pool[k].slot.owner
    requires ctx.batch.results[c.pool[k].slot.idx].None? && ctx.batch.pending == Missing(ctx.batch.results) > 1
    requires BecomesWaiting(p.known, ctx, ops)
    ensures Mirrored(p.known, c2.pool)
  {
    var s := R.History(ctx.env.id, p.known, ops);
    var op := R.Receive([MatchedOf(c.pool[k])]);
    HistoryStep(ctx.env.id, p.known, ops, op);
    DeliverIsRecord(p, c, k, ctx, s, R.Apply(s, op), c2);
    DeliverRecords(p, c, k, ctx);
    assert BecomesWaiting(p.known, c2.pool[Inv(ctx.env.id)].ctx, ops + [op]);
    MirroredWith(p.known, c.pool, c2.pool, ctx.env.id);
  }

  lemma DeliverMirrorsOne(p: Program, c: Config, k: Key, ctx: Context, ops: seq<R.Op>, c2: Config)
    requires p.WellFormed() && Mirrored(p.known, c.pool) && CanDeliver(c, k) && c2 == Deliver(p, c, k) && k.Msg?
    requires c.pool[Inv(c.pool[k].slot.owner)] == Live(ctx) && ctx.env.id == c.pool[k].slot.owner
    requires ctx.batch.results[c.pool[k].slot.idx].None? && ctx.batch.pending == Missing(ctx.batch.results) > 0
    requires BecomesWaiting(p.known, ctx, ops)
    ensures Mirrored(p.known, c2.pool)
  {
    if ctx.batch.pending == 1 {
      DeliverCloses(p, c, k, ctx);
      CloseMirrored(p, c, k, ctx, ops, ClosingOutcome(p, c, k, ctx), c2);
    } else {
      RecordMirrored(p, c, k, ctx, ops, c2);
    }
  }

  lemma {:induction false} PollMirrored(p: Program, c: Config, ks: seq<Key>, c2: Config)
    requires p.WellFormed() && Conserved(c) && Mirrored(p.known, c.pool) && c2 == Poll(p, c, ks)
    ensures Mirrored(p.known, c2.pool)
    decreases |ks|
  {
    if ks != [] {
      if CanDeliver(c, ks[0]) {
        var c1 := Deliver(p, c, ks[0]);
        DeliverConserves(p, c, ks[0], c1);
        DeliverMirrored(p, c, ks[0], c1);
        PollMirrored(p, c1, ks[1..], c2);
      } else {
        PollMirrored(p, c, ks[1..], c2);
      }
    }
  }

  lemma StepMirrored(p: Program, c: Config, c': Config)
    requires p.WellFormed() && Conserved(c) && Mirrored(p.known, c.pool) && Step(p, c, c')
    ensures Mirrored(p.known, c'.pool)
  {
    if k :| Starts(p, c, k, c') {
      StartMirrored(p, c, k, p.handler(c.pool[k].env.fn, c.pool[k].env.payload), c');
    } else {
      var id, ks :| Polls(p, c, id, ks, c');
      PollMirrored(p, c, ks, c');
    }
  }

  /** In every state of every crash-free run each live invocation is in a state that fan-outs and poll
      iterations bring a new context object into. */
  lemma {:induction false} RunMirrored(p: Program, root: Task, cs: seq<Config>, i: nat)
    requires p.WellFormed() && IsRun(p, root, cs) && i < |cs|
    ensures Mirrored(p.known, cs[i].pool)
    decreases i
  {
    if i > 0 {
      RunMirrored(p, root, cs, i - 1);
      RunConserved(p, root, cs, i - 1);
      assert StepTo(p, cs, i);
      StepMirrored(p, cs[i - 1], cs[i]);
    }
  }
}
