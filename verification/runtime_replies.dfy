// Under which id every reply of a run is sent: an execution answers under its own id and for its own
// slot, no id answers twice, and so the replies to a fan-out are what the crash model takes them to be.
module RuntimeReplies {
  import opened Wrappers
  import opened Programs
  import opened Contexts
  import opened Runtime
  import opened RuntimeInvariants
  import opened RuntimeHistory
  import opened RuntimeProgress
  import T = Transparency

  /** `x` is pending or live. */
  ghost predicate Running(pool: Pool, x: Id) {
    exists k :: k in pool && !pool[k].Reply? && Bears(pool[k], x)
  }

  /** `x` is pending or live, and its answer is due in `ret`. */
  ghost predicate Carrier(pool: Pool, x: Id, ret: Option<Slot>) {
    exists k :: k in pool && !pool[k].Reply? && Bears(pool[k], x) && SlotOf(pool[k]) == ret
  }

  lemma CarrierRuns(pool: Pool, x: Id, ret: Option<Slot>)
    requires Carrier(pool, x, ret)
    ensures Running(pool, x)
  {
  }

  // ---- What one step can put into the pool ----

  /** The token at `k` was there before, or it is the work of the execution `x` with its answer due in `ret`: a reply
      of `x` itself for that slot, a successor for that slot under a new UUID, a new child, or `x` waiting. */
  predicate ActedOn(c: Config, c': Config, k: Key, x: Id, ret: Option<Slot>)
    requires k in c'.pool
  {
    || (k in c.pool && c.pool[k] == c'.pool[k])
    || match c'.pool[k]
       case Reply(from, slot, _) => from == x && ret == Some(slot)
       case Invoke(env) => env.id !in c.issued && (env.id.Uuid? ==> env.ret == ret)
       case Live(ctx) => ctx.env.id == x && ctx.env.ret == ret
  }

  ghost predicate Acts(c: Config, c': Config, x: Id, ret: Option<Slot>) {
    && (forall id :: id in c.issued ==> id in c'.issued)
    && forall k {:trigger ActedOn(c, c', k, x, ret)} :: k in c'.pool ==> ActedOn(c, c', k, x, ret)
  }

  lemma ActsTwice(c: Config, c1: Config, c2: Config, x: Id, ret: Option<Slot>)
    requires Acts(c, c1, x, ret) && Acts(c1, c2, x, ret)
    ensures Acts(c, c2, x, ret)
  {
    forall k | k in c2.pool ensures ActedOn(c, c2, k, x, ret) {
      assert ActedOn(c1, c2, k, x, ret);
      if k in c1.pool { assert ActedOn(c, c1, k, x, ret); }
    }
  }

  lemma FanOutActs(c: Config, env: Envelope, runCounter: nat, batchCounter: nat, born: nat, o: Outcome, c2: Config)
    requires o.RunAll? && Settling(c, env.id, runCounter, batchCounter)
    requires c2 == FanOut(c, env, runCounter, batchCounter, born, o)
    ensures Acts(c, c2, env.id, env.ret)
  {
    var ids := ChildIds(env.id, runCounter, |o.tasks|);
    var kids := Children(env, batchCounter, ids, o.tasks, c.clock, |o.tasks|);
    forall k | k in c2.pool ensures ActedOn(c, c2, k, env.id, env.ret) {
      if k in kids { assert c2.pool[k] == kids[k]; }
    }
  }

  lemma SettleActs(p: Program, c: Config, env: Envelope, runCounter: nat, batchCounter: nat, born: nat, o: Outcome, c2: Config)
    requires IssuedOk(c) && Settling(c, env.id, runCounter, batchCounter)
    requires c2 == Settle(p, c, env, runCounter, batchCounter, born, o)
    ensures Acts(c, c2, env.id, env.ret)
  {
    if o.RunAll? {
      FanOutActs(c, env, runCounter, batchCounter, born, o, c2);
    } else {
      forall k | k in c2.pool ensures ActedOn(c, c2, k, env.id, env.ret) {
        assert k == Msg(c.clock) || (k in c.pool && c.pool[k] == c2.pool[k]);
      }
    }
  }

  lemma FewerActs(c: Config, c': Config, x: Id, ret: Option<Slot>)
    requires c'.issued == c.issued && forall k :: k in c'.pool ==> k in c.pool && c.pool[k] == c'.pool[k]
    ensures Acts(c, c', x, ret)
  {
    forall k | k in c'.pool ensures ActedOn(c, c', k, x, ret) {
    }
  }

  lemma StartActs(p: Program, c: Config, k: Key, c': Config)
    requires KeysOk(c) && IdsUnique(c.pool) && IssuedOk(c) && FiredOk(c) && CanStart(c, k) && c' == Start(p, c, k)
    ensures Acts(c, c', c.pool[k].env.id, c.pool[k].env.ret)
  {
    var env := c.pool[k].env;
    var c1 := c.(pool := c.pool - {k}, clock := c.clock + 1, consumed := c.consumed + 1);
    StartRemoves(c, k, c1);
    StartSettles(p, c, k, c1);
    FewerActs(c, c1, env.id, env.ret);
    SettleActs(p, c1, env, 0, 0, c.clock, p.handler(env.fn, env.payload), c');
    ActsTwice(c, c1, c', env.id, env.ret);
  }

  lemma RecordActs(c: Config, k: Key, ctx: Context, c': Config)
    requires Recorded(c.pool, k, ctx, c'.pool) && ctx.env.id == c.pool[k].slot.owner && c'.issued == c.issued
    ensures Acts(c, c', ctx.env.id, ctx.env.ret)
  {
    forall j | j in c'.pool ensures ActedOn(c, c', j, ctx.env.id, ctx.env.ret) {
    }
  }

  lemma CloseActs(p: Program, c: Config, k: Key, ctx: Context, o: Outcome, c1: Config, c': Config)
    requires KeysOk(c) && IdsUnique(c.pool) && IssuedOk(c) && FiredOk(c)
    requires k.Msg? && Inv(ctx.env.id) in c.pool && c.pool[Inv(ctx.env.id)] == Live(ctx)
    requires c1.pool == c.pool - {k} - {Inv(ctx.env.id)} && c1.clock == c.clock
    requires c1.issued == c.issued && c1.fired == c.fired + [(ctx.env.id, ctx.number)]
    requires c' == Settle(p, c1, ctx.env, ctx.runCounter, ctx.batchCounter, ctx.born, o)
    ensures Acts(c, c', ctx.env.id, ctx.env.ret)
  {
    CloseRemoves(c, k, ctx, c1);
    FewerActs(c, c1, ctx.env.id, ctx.env.ret);
    SettleActs(p, c1, ctx.env, ctx.runCounter, ctx.batchCounter, ctx.born, o, c');
    ActsTwice(c, c1, c', ctx.env.id, ctx.env.ret);
  }

  lemma DeliverActs(p: Program, c: Config, k: Key, ctx: Context, c': Config)
    requires Conserved(c) && Logged(c) && CanDeliver(c, k) && c' == Deliver(p, c, k)
    requires c.pool[Inv(c.pool[k].slot.owner)] == Live(ctx)
    ensures ctx.env.id == c.pool[k].slot.owner && Acts(c, c', ctx.env.id, ctx.env.ret)
  {
    RepliesMatch(c, k);
    if ctx.batch.pending == 1 {
      DeliverCloses(p, c, k, ctx);
      CloseActs(p, c, k, ctx, ClosingOutcome(p, c, k, ctx), Closing(c, k, ctx), c');
    } else {
      DeliverRecords(p, c, k, ctx);
      RecordActs(c, k, ctx, c');
    }
  }

  /** The replies `ks` are all for the live invocation `id`, whose own answer is due in `ret`. */
  ghost predicate ForOne(c: Config, id: Id, ret: Option<Slot>, ks: seq<Key>) {
    && (forall i, j :: 0 <= i < j < |ks| ==> ks[i] != ks[j])
    && (forall i :: 0 <= i < |ks| ==> ks[i] in c.pool && c.pool[ks[i]].Reply? && c.pool[ks[i]].slot.owner == id)
    && (ks != [] ==> IsLive(c.pool, id) && c.pool[Inv(id)].ctx.env.ret == ret)
  }

  lemma RestForOne(p: Program, c: Config, id: Id, ret: Option<Slot>, ks: seq<Key>, c1: Config)
    requires Conserved(c) && Conserved(c1) && ks != [] && ForOne(c, id, ret, ks)
    requires CanDeliver(c, ks[0]) && c1 == Deliver(p, c, ks[0]) && Acts(c, c1, id, ret)
    ensures ForOne(c1, id, ret, ks[1..])
  {
    var rest := ks[1..];
    forall i | 0 <= i < |rest| ensures rest[i] in c1.pool && c1.pool[rest[i]] == c.pool[rest[i]] {
      DeliverKeepsMessages(p, c, ks[0], ks[1 + i]);
    }
    if rest != [] {
      RepliesMatch(c1, rest[0]);
      assert ActedOn(c, c1, Inv(id), id, ret);
    }
  }

  lemma {:induction false} PollActs(p: Program, c: Config, id: Id, ret: Option<Slot>, ks: seq<Key>, c': Config)
    requires p.WellFormed() && Conserved(c) && Logged(c) && ForOne(c, id, ret, ks) && c' == Poll(p, c, ks)
    ensures Acts(c, c', id, ret)
    decreases |ks|
  {
    if ks == [] {
      FewerActs(c, c', id, ret);
    } else {
      RepliesMatch(c, ks[0]);
      var c1 := Deliver(p, c, ks[0]);
      DeliverActs(p, c, ks[0], c.pool[Inv(id)].ctx, c1);
      DeliverConserves(p, c, ks[0], c1);
      DeliverHistory(p, c, ks[0], c1);
      RestForOne(p, c, id, ret, ks, c1);
      PollActs(p, c1, id, ret, ks[1..], c');
      ActsTwice(c, c1, c', id, ret);
    }
  }

  /** Every step is the work of one execution. */
  lemma StepActs(p: Program, c: Config, c': Config) returns (x: Id, ret: Option<Slot>)
    requires p.WellFormed() && Conserved(c) && Logged(c) && Step(p, c, c')
    ensures Carrier(c.pool, x, ret) && Acts(c, c', x, ret)
  {
    if k :| Starts(p, c, k, c') {
      x, ret := c.pool[k].env.id, c.pool[k].env.ret;
      StartActs(p, c, k, c');
      assert Bears(c.pool[k], x);
    } else {
      var id, ks :| Polls(p, c, id, ks, c');
      RepliesMatch(c, ks[0]);
      x, ret := id, c.pool[Inv(id)].ctx.env.ret;
      assert Bears(c.pool[Inv(id)], x);
      PollActs(p, c, id, ret, ks, c');
    }
  }

  // ---- No id answers twice ----

  /** `f` has been issued and runs no more. */
  ghost predicate Done(c: Config, f: Id) {
    f in c.issued && !Running(c.pool, f)
  }

  lemma ReplierIsDone(c: Config, k: Key)
    requires IdsUnique(c.pool) && IssuedOk(c) && k in c.pool && c.pool[k].Reply?
    ensures Done(c, c.pool[k].from)
  {
    if Running(c.pool, c.pool[k].from) {
      var l :| l in c.pool && !c.pool[l].Reply? && Bears(c.pool[l], c.pool[k].from);
      assert Bears(c.pool[k], c.pool[k].from);
    }
  }

  lemma StaysDone(c: Config, c': Config, x: Id, ret: Option<Slot>, f: Id)
    requires Acts(c, c', x, ret) && Carrier(c.pool, x, ret) && Done(c, f)
    ensures Done(c', f)
  {
    CarrierRuns(c.pool, x, ret);
    forall k | k in c'.pool && !c'.pool[k].Reply? ensures !Bears(c'.pool[k], f) {
      assert ActedOn(c, c', k, x, ret);
    }
  }

  lemma RunStep(p: Program, root: Task, cs: seq<Config>, i: nat) returns (x: Id, ret: Option<Slot>)
    requires p.WellFormed() && IsRun(p, root, cs) && 0 < i < |cs|
    ensures Carrier(cs[i - 1].pool, x, ret) && Acts(cs[i - 1], cs[i], x, ret)
  {
    RunConserved(p, root, cs, i - 1);
    RunLogged(p, root, cs, i - 1);
    assert StepTo(p, cs, i);
    x, ret := StepActs(p, cs[i - 1], cs[i]);
  }

  predicate IsReply(cs: seq<Config>, i: nat, k: Key) {
    i < |cs| && k in cs[i].pool && cs[i].pool[k].Reply?
  }

  lemma {:induction false} AnsweredForGood(p: Program, root: Task, cs: seq<Config>, j: nat, l: Key, i: nat)
    requires p.WellFormed() && IsRun(p, root, cs) && IsReply(cs, j, l) && j <= i < |cs|
    ensures Done(cs[i], cs[j].pool[l].from)
    decreases i
  {
    if i == j {
      RunConserved(p, root, cs, j);
      RunLogged(p, root, cs, j);
      ReplierIsDone(cs[j], l);
    } else {
      AnsweredForGood(p, root, cs, j, l, i - 1);
      var x, ret := RunStep(p, root, cs, i);
      StaysDone(cs[i - 1], cs[i], x, ret, cs[j].pool[l].from);
    }
  }

  /** A reply that a step sends comes from an execution that was running just before, under that execution's
      own id and into the slot its answer was due in. */
  lemma AnswersUnderOwnId(p: Program, root: Task, cs: seq<Config>, i: nat, k: Key)
    requires p.WellFormed() && IsRun(p, root, cs) && IsReply(cs, i, k)
    requires i > 0 && !(k in cs[i - 1].pool && cs[i - 1].pool[k] == cs[i].pool[k])
    ensures Carrier(cs[i - 1].pool, cs[i].pool[k].from, Some(cs[i].pool[k].slot))
  {
    var x, ret := RunStep(p, root, cs, i);
    assert ActedOn(cs[i - 1], cs[i], k, x, ret);
  }

  /** Over a whole run no id answers twice: two replies from one id are one message. */
  lemma {:induction false} OneAnswerPerId(p: Program, root: Task, cs: seq<Config>, j: nat, l: Key, i: nat, k: Key)
    requires p.WellFormed() && IsRun(p, root, cs) && IsReply(cs, j, l) && IsReply(cs, i, k) && j <= i
    requires cs[j].pool[l].from == cs[i].pool[k].from
    ensures k == l && cs[j].pool[l] == cs[i].pool[k]
    decreases i
  {
    var f := cs[i].pool[k].from;
    if i == j {
      RunConserved(p, root, cs, i);
      assert Bears(cs[i].pool[k], f) && Bears(cs[i].pool[l], f);
    } else if k in cs[i - 1].pool && cs[i - 1].pool[k] == cs[i].pool[k] {
      OneAnswerPerId(p, root, cs, j, l, i - 1, k);
    } else {
      AnswersUnderOwnId(p, root, cs, i, k);
      CarrierRuns(cs[i - 1].pool, f, Some(cs[i].pool[k].slot));
      AnsweredForGood(p, root, cs, j, l, i - 1);
    }
  }

  // ---- Which ids answer ----

  /** A `next` draws the UUID `id` for `slot`: another execution, whose answer was due in `slot`, hands the
      slot on to an invocation of that new id. */
  ghost predicate DrawnAt(c: Config, c': Config, id: Id, slot: Slot) {
    && id.Uuid? && id !in c.issued && id in c'.issued
    && (exists k :: k in c'.pool && c'.pool[k].Invoke? && c'.pool[k].env.id == id && c'.pool[k].env.ret == Some(slot))
    && exists x :: x != id && Carrier(c.pool, x, Some(slot)) && !Carrier(c'.pool, x, Some(slot))
  }

  ghost predicate DrawnByNext(cs: seq<Config>, i: nat, id: Id, slot: Slot)
    requires i < |cs|
  {
    exists j :: 0 < j <= i && DrawnAt(cs[j - 1], cs[j], id, slot)
  }

  /** Whoever bears a UUID and is not the root got it from a `next`. */
  ghost predicate UuidsDrawn(cs: seq<Config>, i: nat)
    requires i < |cs|
  {
    forall k :: k in cs[i].pool && IdOf(cs[i].pool[k]).Uuid? && SlotOf(cs[i].pool[k]).Some? ==>
                  DrawnByNext(cs, i, IdOf(cs[i].pool[k]), SlotOf(cs[i].pool[k]).value)
  }

  lemma DrawnLater(cs: seq<Config>, i: nat, i': nat, id: Id, slot: Slot)
    requires i <= i' < |cs| && DrawnByNext(cs, i, id, slot)
    ensures DrawnByNext(cs, i', id, slot)
  {
    var j :| 0 < j <= i && DrawnAt(cs[j - 1], cs[j], id, slot);
    assert DrawnAt(cs[j - 1], cs[j], id, slot);
  }

  lemma SuccessorIsDrawn(c: Config, c': Config, x: Id, slot: Slot, k: Key)
    requires IssuedOk(c) && IssuedOk(c') && SlotsUnique(c'.pool) && Carrier(c.pool, x, Some(slot))
    requires k in c'.pool && c'.pool[k].Invoke? && c'.pool[k].env.ret == Some(slot)
    requires c'.pool[k].env.id.Uuid? && c'.pool[k].env.id !in c.issued
    ensures DrawnAt(c, c', c'.pool[k].env.id, slot)
  {
    var id := c'.pool[k].env.id;
    var l :| l in c.pool && !c.pool[l].Reply? && Bears(c.pool[l], x) && SlotOf(c.pool[l]) == Some(slot);
    assert x in c.issued;
    forall m | m in c'.pool && SlotOf(c'.pool[m]) == Some(slot) ensures m == k {
      assert SlotOf(c'.pool[k]) == Some(slot);
    }
  }

  lemma DrawnStep(cs: seq<Config>, i: nat, x: Id, ret: Option<Slot>, k: Key)
    requires 0 < i < |cs| && UuidsDrawn(cs, i - 1) && Carrier(cs[i - 1].pool, x, ret) && Acts(cs[i - 1], cs[i], x, ret)
    requires IssuedOk(cs[i - 1]) && IssuedOk(cs[i]) && SlotsUnique(cs[i].pool)
    requires k in cs[i].pool && IdOf(cs[i].pool[k]).Uuid? && SlotOf(cs[i].pool[k]).Some?
    ensures DrawnByNext(cs, i, IdOf(cs[i].pool[k]), SlotOf(cs[i].pool[k]).value)
  {
    var c, t := cs[i - 1], cs[i].pool[k];
    assert ActedOn(c, cs[i], k, x, ret);
    if k in c.pool && c.pool[k] == t {
      DrawnLater(cs, i - 1, i, IdOf(t), SlotOf(t).value);
    } else if t.Invoke? {
      SuccessorIsDrawn(c, cs[i], x, SlotOf(t).value, k);
    } else {
      var l :| l in c.pool && !c.pool[l].Reply? && Bears(c.pool[l], x) && SlotOf(c.pool[l]) == ret;
      assert IdOf(c.pool[l]) == IdOf(t);
      DrawnLater(cs, i - 1, i, IdOf(t), SlotOf(t).value);
    }
  }

  lemma {:induction false} RunDraws(p: Program, root: Task, cs: seq<Config>, i: nat)
    requires p.WellFormed() && IsRun(p, root, cs) && i < |cs|
    ensures UuidsDrawn(cs, i)
    decreases i
  {
    if i > 0 {
      RunDraws(p, root, cs, i - 1);
      var x, ret := RunStep(p, root, cs, i);
      RunIds(p, root, cs, i - 1);
      RunIds(p, root, cs, i);
      forall k | k in cs[i].pool && IdOf(cs[i].pool[k]).Uuid? && SlotOf(cs[i].pool[k]).Some?
        ensures DrawnByNext(cs, i, IdOf(cs[i].pool[k]), SlotOf(cs[i].pool[k]).value)
      {
        DrawnStep(cs, i, x, ret, k);
      }
    }
  }

  lemma RunIds(p: Program, root: Task, cs: seq<Config>, i: nat)
    requires p.WellFormed() && IsRun(p, root, cs) && i < |cs|
    ensures IssuedOk(cs[i]) && SlotsUnique(cs[i].pool) && IdsUnique(cs[i].pool)
  {
    RunConserved(p, root, cs, i);
    RunLogged(p, root, cs, i);
  }

  /** In every state of every run a reply comes from the child its slot was opened for, or from an issued
      UUID that a `next` has drawn for that very slot. */
  lemma RepliesCarryChildIds(p: Program, root: Task, cs: seq<Config>, i: nat, k: Key)
    requires p.WellFormed() && IsRun(p, root, cs) && IsReply(cs, i, k)
    ensures var from, slot := cs[i].pool[k].from, cs[i].pool[k].slot;
            && IsLive(cs[i].pool, slot.owner)
            && var ctx := cs[i].pool[Inv(slot.owner)].ctx;
            && slot.batch == ctx.number && slot.idx < |ctx.batch.childIds|
            && (|| from == ctx.batch.childIds[slot.idx]
                || (from.Uuid? && from in cs[i].issued && DrawnByNext(cs, i, from, slot)))
  {
    RunConserved(p, root, cs, i);
    RunLogged(p, root, cs, i);
    RunDraws(p, root, cs, i);
    RepliesMatch(cs[i], k);
    assert OwnedOk(cs[i], k);
    assert IdOf(cs[i].pool[k]) == cs[i].pool[k].from;
  }

  // ---- The replies to a fan-out are a scenario of the crash model ----

  /** A waiting invocation has asked deployed functions only, and numbers its children from 0. */
  predicate Fits(p: Program, ctx: Context) {
    && (forall t :: t in ctx.tasks ==> t.fn in p.known)
    && ctx.batchCounter == ctx.number + 1
    && (ctx.number == 0 ==> ctx.runCounter == |ctx.tasks|)
  }

  ghost predicate AllFit(p: Program, pool: Pool) {
    forall k :: k in pool && pool[k].Live? ==> Fits(p, pool[k].ctx)
  }

  lemma SettleFits(p: Program, c: Config, env: Envelope, runCounter: nat, batchCounter: nat, born: nat, o: Outcome, c2: Config)
    requires AllFit(p, c.pool) && p.Accepts(o) && (batchCounter == 0 ==> runCounter == 0)
    requires c2 == Settle(p, c, env, runCounter, batchCounter, born, o)
    ensures AllFit(p, c2.pool)
  {
  }

  lemma DeliverFits(p: Program, c: Config, k: Key, ctx: Context, c2: Config)
    requires p.WellFormed() && Conserved(c) && AllFit(p, c.pool) && CanDeliver(c, k) && c2 == Deliver(p, c, k)
    requires c.pool[Inv(c.pool[k].slot.owner)] == Live(ctx)
    ensures AllFit(p, c2.pool)
  {
    RepliesMatch(c, k);
    assert Fits(p, ctx);
    if ctx.batch.pending == 1 {
      DeliverCloses(p, c, k, ctx);
      SettleFits(p, Closing(c, k, ctx), ctx.env, ctx.runCounter, ctx.batchCounter, ctx.born, ClosingOutcome(p, c, k, ctx), c2);
    } else {
      DeliverRecords(p, c, k, ctx);
    }
  }

  lemma {:induction false} PollFits(p: Program, c: Config, ks: seq<Key>, c2: Config)
    requires p.WellFormed() && Conserved(c) && AllFit(p, c.pool) && c2 == Poll(p, c, ks)
    ensures AllFit(p, c2.pool)
    decreases |ks|
  {
    if ks != [] {
      if CanDeliver(c, ks[0]) {
        var c1 := Deliver(p, c, ks[0]);
        DeliverConserves(p, c, ks[0], c1);
        DeliverFits(p, c, ks[0], c.pool[Inv(c.pool[ks[0]].slot.owner)].ctx, c1);
        PollFits(p, c1, ks[1..], c2);
      } else {
        PollFits(p, c, ks[1..], c2);
      }
    }
  }

  lemma FewerFit(p: Program, pool: Pool, k: Key, pool2: Pool)
    requires AllFit(p, pool) && pool2 == pool - {k}
    ensures AllFit(p, pool2)
  {
  }

  lemma StartFits(p: Program, c: Config, k: Key, o: Outcome, c': Config)
    requires AllFit(p, c.pool) && CanStart(c, k) && c' == Start(p, c, k)
    requires o == p.handler(c.pool[k].env.fn, c.pool[k].env.payload) && p.Accepts(o)
    ensures AllFit(p, c'.pool)
  {
    var c1 := c.(pool := c.pool - {k}, clock := c.clock + 1, consumed := c.consumed + 1);
    FewerFit(p, c.pool, k, c1.pool);
    StartSettles(p, c, k, c1);
    SettleFits(p, c1, c.pool[k].env, 0, 0, c.clock, o, c');
  }

  lemma StepFits(p: Program, c: Config, c': Config)
    requires p.WellFormed() && Conserved(c) && AllFit(p, c.pool) && Step(p, c, c')
    ensures AllFit(p, c'.pool)
  {
    if k :| Starts(p, c, k, c') {
      StartFits(p, c, k, p.handler(c.pool[k].env.fn, c.pool[k].env.payload), c');
    } else {
      var id, ks :| Polls(p, c, id, ks, c');
      PollFits(p, c, ks, c');
    }
  }

  lemma {:induction false} RunFits(p: Program, root: Task, cs: seq<Config>, i: nat)
    requires p.WellFormed() && IsRun(p, root, cs) && i < |cs|
    ensures AllFit(p, cs[i].pool)
    decreases i
  {
    if i > 0 {
      RunFits(p, root, cs, i - 1);
      RunConserved(p, root, cs, i - 1);
      assert StepTo(p, cs, i);
      StepFits(p, cs[i - 1], cs[i]);
    }
  }

  /** Some time in the run a reply with this result is on its way from `from` to the slot. */
  ghost predicate Answered(cs: seq<Config>, slot: Slot, from: Id, res: Result) {
    exists j: nat, l: Key :: IsReply(cs, j, l) && cs[j].pool[l] == Reply(from, slot, res)
  }

  /** The answer in slot `idx` of a first fan-out comes from child `idx` itself or from a UUID. */
  lemma FirstFanOutIds(p: Program, root: Task, cs: seq<Config>, id: Id, idx: nat, from: Id, res: Result)
    requires p.WellFormed() && IsRun(p, root, cs) && Answered(cs, Slot(id, 0, idx), from, res)
    ensures from == Child(id, idx) || from.Uuid?
  {
    var j: nat, l: Key :| IsReply(cs, j, l) && cs[j].pool[l] == Reply(from, Slot(id, 0, idx), res);
    RepliesCarryChildIds(p, root, cs, j, l);
    RunFits(p, root, cs, j);
    RunConserved(p, root, cs, j);
    RepliesMatch(cs[j], l);
    var ctx := cs[j].pool[Inv(id)].ctx;
    assert Fits(p, ctx);
  }

  lemma AnswersDiffer(p: Program, root: Task, cs: seq<Config>, s: Slot, t: Slot, from: Id, r: Result, r': Result)
    requires p.WellFormed() && IsRun(p, root, cs) && Answered(cs, s, from, r) && Answered(cs, t, from, r')
    ensures s == t
  {
    var j: nat, l: Key :| IsReply(cs, j, l) && cs[j].pool[l] == Reply(from, s, r);
    var i: nat, k: Key :| IsReply(cs, i, k) && cs[i].pool[k] == Reply(from, t, r');
    if j <= i { OneAnswerPerId(p, root, cs, j, l, i, k); } else { OneAnswerPerId(p, root, cs, i, k, j, l); }
  }

  /** Whatever a run answers to the first fan-out of an invocation is a scenario of the crash model. */
  lemma FanOutIsScenario(p: Program, root: Task, cs: seq<Config>, i: nat, ctx: Context, from: seq<Id>, res: seq<Result>)
    requires p.WellFormed() && IsRun(p, root, cs) && i < |cs|
    requires Inv(ctx.env.id) in cs[i].pool && cs[i].pool[Inv(ctx.env.id)] == Live(ctx) && ctx.number == 0
    requires |from| == |res| == |ctx.tasks|
    requires forall idx :: 0 <= idx < |from| ==> Answered(cs, Slot(ctx.env.id, 0, idx), from[idx], res[idx])
    ensures T.Scenario(ctx.env.id, p.known, ctx.tasks, ctx.batch.callback, ctx.batch.state, from, res).Valid()
  {
    var id := ctx.env.id;
    RunFits(p, root, cs, i);
    RunConserved(p, root, cs, i);
    assert Fits(p, ctx) && ContextOk(ctx, cs[i].clock);
    forall idx | 0 <= idx < |from| ensures from[idx] == Child(id, idx) || from[idx].Uuid? {
      FirstFanOutIds(p, root, cs, id, idx, from[idx], res[idx]);
    }
    forall a, b | 0 <= a < b < |from| ensures from[a] != from[b] {
      if from[a] == from[b] { AnswersDiffer(p, root, cs, Slot(id, 0, a), Slot(id, 0, b), from[a], res[a], res[b]); }
    }
  }
}
