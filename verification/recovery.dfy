// Crash recovery of one invocation: the snapshots in the aggregation queue form a chain, and for
// one fan-out a crash between poll iterations is invisible to the callback.
module Recovery {
  import opened Programs
  import opened Contexts
  import opened FnContext

  // ---- Snapshots form a chain ----

  /** `b` holds every result of `a`. */
  predicate Extends(a: map<Id, Result>, b: map<Id, Result>) {
    forall k :: k in a ==> k in b && b[k] == a[k]
  }

  /** What can happen to an invocation: a fan-out, a poll iteration, or a crash after which it is
      delivered again and reads the aggregation queue in the order `seen`. */
  datatype Op =
    | Fan(tasks: seq<Task>, callback: Name, state: Value)
    | Receive(ms: seq<Matched>)
    | Crash(seen: seq<Snapshot>)

  /** Results are delivered once each, and a re-invocation sees every snapshot there is. */
  predicate Allowed(s: State, op: Op) {
    match op
    case Fan(tasks, _, _) => tasks != []
    case Receive(ms) =>
      && (forall i :: 0 <= i < |ms| ==> ms[i].from !in s.resolved)
      && (forall i, j :: 0 <= i < j < |ms| ==> ms[i].from != ms[j].from)
    case Crash(seen) => multiset(seen) == multiset(s.agg)
  }

  function Reinvoke(s: State, seen: seq<Snapshot>): State {
    match Best(seen)
    case None => Fresh(s.id, s.known).(agg := s.agg, sent := s.sent)
    case Some(snapshot) => Restore(s.id, s.known, snapshot, s.agg, s.sent)
  }

  function Apply(s: State, op: Op): State {
    match op
    case Fan(tasks, callback, state) => RunAllState(s, tasks, callback, state)
    case Receive(ms) => RecordAll(EnsureInbox(s), ms)
    case Crash(seen) => Reinvoke(s, seen)
  }

  predicate Ordered(agg: seq<Snapshot>) {
    forall i, j :: 0 <= i <= j < |agg| ==> Extends(agg[i].results, agg[j].results)
  }

  /** The chain, with its latest snapshot in step with memory. */
  predicate ChainOk(s: State) {
    && Ordered(s.agg)
    && (s.agg != [] ==> s.agg[|s.agg| - 1].results == s.resolved)
    && (s.agg == [] ==> s.resolved == map[] && !s.queuesOpen && !s.restored)
    && (!s.queuesOpen && !s.restored ==> s.agg == [])
  }

  lemma PersistChain(s: State)
    requires Ordered(s.agg) && s.queuesOpen
    requires s.agg != [] ==> Extends(s.agg[|s.agg| - 1].results, s.resolved)
    ensures ChainOk(Persist(s))
  {
    var t := Persist(s);
    forall i, j | 0 <= i <= j < |t.agg| ensures Extends(t.agg[i].results, t.agg[j].results) {
      if j == |s.agg| && i < j {
        assert Extends(s.agg[i].results, s.agg[|s.agg| - 1].results);
      }
    }
  }

  lemma EnsureInboxChain(s: State)
    requires ChainOk(s)
    ensures ChainOk(EnsureInbox(s)) && EnsureInbox(s).queuesOpen && EnsureInbox(s).resolved == s.resolved
  {
    if !s.queuesOpen && !s.restored { PersistChain(s.(queuesOpen := true)); }
  }

  lemma RunAllChain(s: State, tasks: seq<Task>, callback: Name, state: Value)
    requires ChainOk(s)
    ensures ChainOk(RunAllState(s, tasks, callback, state))
  {
    var b := OpenBatch(s.id, s.runCounter, |tasks|, callback, state, s.cached);
    if tasks != [] && b.pending != 0 {
      var s1 := s.(runCounter := s.runCounter + |tasks|, batchCounter := s.batchCounter + 1,
                   batches := s.batches[s.batchCounter := b]);
      if s.queuesOpen { PersistChain(s1); } else { EnsureInboxChain(s1); }
    }
  }

  lemma RecordChain(s: State, m: Matched)
    requires ChainOk(s) && s.queuesOpen && Matches(s, m) && m.from !in s.resolved
    ensures var t := RecordState(s, m); ChainOk(t) && t.queuesOpen && t.resolved == s.resolved[m.from := m.res]
  {
    PersistChain(s.(batches := s.batches[m.number := Record(s.batches[m.number], m.idx, m.res)],
                    resolved := s.resolved[m.from := m.res]));
  }

  lemma {:induction false} RecordAllChain(s: State, ms: seq<Matched>)
    requires ChainOk(s) && s.queuesOpen && Allowed(s, Receive(ms))
    ensures var t := RecordAll(s, ms);
            ChainOk(t) && t.queuesOpen && forall k :: k in t.resolved ==> k in s.resolved || exists i :: 0 <= i < |ms| && ms[i].from == k
    decreases |ms|
  {
    if ms != [] {
      var n := |ms| - 1;
      RecordAllChain(s, ms[..n]);
      var t := RecordAll(s, ms[..n]);
      if Matches(t, ms[n]) { RecordChain(t, ms[n]); }
    }
  }

  /** A queue that holds the chain gives back everything ever recorded, whatever the receive order. */
  lemma LargestIsUnion(s: State, seen: seq<Snapshot>)
    requires ChainOk(s) && multiset(seen) == multiset(s.agg)
    ensures Best(seen).None? <==> s.agg == []
    ensures Best(seen).Some? ==> Best(seen).value.results == s.resolved
    ensures Best(seen).Some? ==> forall i :: 0 <= i < |s.agg| ==> Extends(s.agg[i].results, Best(seen).value.results)
  {
    var i := BestIsFirstLargest(seen);
    assert |seen| == |multiset(seen)| == |multiset(s.agg)| == |s.agg|;
    if s.agg != [] {
      var last := s.agg[|s.agg| - 1];
      assert last in multiset(s.agg) && seen[i] in multiset(seen);
      assert last in seen && seen[i] in s.agg;
      SubmapOfSameSize(seen[i].results, last.results);
    }
  }

  lemma SubmapOfSameSize(a: map<Id, Result>, b: map<Id, Result>)
    requires Extends(a, b) && |b| <= |a|
    ensures a == b
  {
    assert a.Keys <= b.Keys;
    assert |b.Keys - a.Keys| == |b.Keys| - |a.Keys|;
    assert b.Keys - a.Keys == {};
  }

  lemma ApplyChain(s: State, op: Op)
    requires ChainOk(s) && Allowed(s, op)
    ensures ChainOk(Apply(s, op))
    ensures Extends(s.resolved, Apply(s, op).resolved)
  {
    match op
    case Fan(tasks, callback, state) => RunAllChain(s, tasks, callback, state);
    case Receive(ms) =>
      EnsureInboxChain(s);
      RecordAllChain(EnsureInbox(s), ms);
      RecordAllExtends(EnsureInbox(s), ms);
    case Crash(seen) => LargestIsUnion(s, seen);
  }

  lemma {:induction false} RecordAllExtends(s: State, ms: seq<Matched>)
    requires Allowed(s, Receive(ms)) && ChainOk(s) && s.queuesOpen
    ensures Extends(s.resolved, RecordAll(s, ms).resolved)
    decreases |ms|
  {
    if ms != [] {
      RecordAllChain(s, ms[..|ms| - 1]);
      RecordAllExtends(s, ms[..|ms| - 1]);
    }
  }

  function History(id: Id, known: set<Name>, ops: seq<Op>): State {
    if ops == [] then Fresh(id, known) else Apply(History(id, known, ops[..|ops| - 1]), ops[|ops| - 1])
  }

  predicate AllAllowed(id: Id, known: set<Name>, ops: seq<Op>) {
    forall i :: 0 <= i < |ops| ==> Allowed(History(id, known, ops[..i]), ops[i])
  }

  /** Across one invocation and all its re-invocations, every later snapshot extends every earlier
      one, and no crash ever loses a recorded result. */
  lemma {:induction false} SnapshotsFormChain(id: Id, known: set<Name>, ops: seq<Op>, earlier: nat)
    requires AllAllowed(id, known, ops) && earlier <= |ops|
    ensures ChainOk(History(id, known, ops))
    ensures Extends(History(id, known, ops[..earlier]).resolved, History(id, known, ops).resolved)
    decreases |ops|
  {
    if ops != [] {
      var n := |ops| - 1;
      var before := ops[..n];
      assert forall i :: 0 <= i <= n ==> before[..i] == ops[..i];
      SnapshotsFormChain(id, known, before, if earlier <= n then earlier else n);
      ApplyChain(History(id, known, before), ops[n]);
      if earlier == |ops| { assert ops[..earlier] == ops; } else { assert before[..earlier] == ops[..earlier]; }
    }
  }

  // ---- Persist before dispatch ----

  /** `agg` was extended by a snapshot that lists the batch `number` with exactly these children. */
  predicate Durable(before: seq<Snapshot>, agg: seq<Snapshot>, number: nat, childIds: seq<Id>) {
    exists i :: |before| <= i < |agg| && number in agg[i].batches && agg[i].batches[number].childIds == childIds
  }

  /** Before the first invitation of a fan-out leaves, a new snapshot lists all its children: always in a
      first invocation; in a re-invocation exactly when its queues were opened before. */
  lemma PersistedBeforeDispatch(s: State, tasks: seq<Task>, callback: Name, state: Value)
    requires tasks != []
    requires OpenBatch(s.id, s.runCounter, |tasks|, callback, state, s.cached).pending != 0
    ensures var b := OpenBatch(s.id, s.runCounter, |tasks|, callback, state, s.cached);
            var ready := Register(s, |tasks|, callback, state);
            && ready.sent == s.sent
            && RunAllState(s, tasks, callback, state) ==
                 ready.(sent := s.sent + InvitationsFor(s.known, s.id, s.batchCounter, b, tasks))
            && (Durable(s.agg, ready.agg, s.batchCounter, b.childIds) <==> s.queuesOpen || !s.restored)
  {
    var b := OpenBatch(s.id, s.runCounter, |tasks|, callback, state, s.cached);
    var ready := Register(s, |tasks|, callback, state);
    if s.queuesOpen || !s.restored {
      var i := |s.agg|;
      assert |ready.agg| == i + 1 && s.batchCounter in ready.agg[i].batches
             && ready.agg[i].batches[s.batchCounter].childIds == b.childIds;
    } else {
      assert ready.agg == s.agg;
    }
  }
}
