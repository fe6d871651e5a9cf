// The in-memory context of one invocation (fn.js `buildContext`) with the two queues it owns:
// what `runAll`, the poller, `persistState` and the snapshot restore do to it.
module FnContext {
  import opened Wrappers
  import opened Programs
  import opened Contexts

  datatype SavedBatch = SavedBatch(callback: Name, state: Value, childIds: seq<Id>)

  /** What `persistState` writes to the aggregation queue. */
  datatype Snapshot = Snapshot(results: map<Id, Result>, batches: map<nat, SavedBatch>)

  /** The closure variables of `buildContext`, the names of the deployed functions (`ENTRY_MAP`), the
      snapshots written and the invitations sent. */
  datatype State = State(
    id: Id,
    known: set<Name>,
    restored: bool,
    cached: map<Id, Result>,
    resolved: map<Id, Result>,
    runCounter: nat,
    batchCounter: nat,
    batches: map<nat, Batch>,
    queuesOpen: bool,
    agg: seq<Snapshot>,
    sent: seq<Envelope>)

  function Fresh(id: Id, known: set<Name>): State {
    State(id, known, false, map[], map[], 0, 0, map[], false, [], [])
  }

  function Save(batches: map<nat, Batch>): (saved: map<nat, SavedBatch>)
    ensures saved.Keys == batches.Keys
  {
    map n | n in batches :: SavedBatch(batches[n].callback, batches[n].state, batches[n].childIds)
  }

  /** `persistState`: nothing is written before the queues exist. */
  function Persist(s: State): State {
    if s.queuesOpen then s.(agg := s.agg + [Snapshot(s.resolved, Save(s.batches))]) else s
  }

  /** `ensureInbox`: creates both queues; a first invocation also writes its first snapshot. */
  function EnsureInbox(s: State): State {
    if s.queuesOpen then s
    else if s.restored then s.(queuesOpen := true)
    else Persist(s.(queuesOpen := true))
  }

  /** The indices below `n` of the unfilled slots. */
  function Unfilled(rs: seq<Option<Result>>, n: nat): (idxs: seq<nat>)
    requires n <= |rs|
    ensures forall j :: 0 <= j < |idxs| ==> idxs[j] < n
  {
    if n == 0 then [] else Unfilled(rs, n - 1) + (if rs[n - 1].None? then [n - 1] else [])
  }

  /** The invitations for the tasks `idxs`, in that order; nothing is sent to a function that is not deployed. */
  function Invitations(known: set<Name>, owner: Id, number: nat, ids: seq<Id>, tasks: seq<Task>, idxs: seq<nat>): seq<Envelope>
    requires |tasks| == |ids| && forall j :: 0 <= j < |idxs| ==> idxs[j] < |tasks|
  {
    if idxs == [] then []
    else
      var i := idxs[|idxs| - 1];
      Invitations(known, owner, number, ids, tasks, idxs[..|idxs| - 1])
      + (if tasks[i].fn in known then [ChildEnvelope(owner, number, ids, tasks, i)] else [])
  }

  /** The first task among `idxs` whose function is not deployed: its error is what `runAll` throws. */
  function FirstUnknown(known: set<Name>, tasks: seq<Task>, idxs: seq<nat>): Option<Name>
    requires forall j :: 0 <= j < |idxs| ==> idxs[j] < |tasks|
  {
    if idxs == [] then None
    else
      var i := idxs[|idxs| - 1];
      var before := FirstUnknown(known, tasks, idxs[..|idxs| - 1]);
      if before.Some? || tasks[i].fn in known then before else Some(tasks[i].fn)
  }

  /** What a batch with slots `rs` sends out when it is opened. */
  function InvitationsFor(known: set<Name>, owner: Id, number: nat, b: Batch, tasks: seq<Task>): seq<Envelope>
    requires |tasks| == |b.results| == |b.childIds|
  {
    Invitations(known, owner, number, b.childIds, tasks, Unfilled(b.results, |b.results|))
  }

  lemma {:induction false} UnfilledExact(rs: seq<Option<Result>>, n: nat)
    requires n <= |rs|
    ensures forall i :: 0 <= i < n ==> (i in Unfilled(rs, n) <==> rs[i].None?)
    ensures forall j, k :: 0 <= j < k < |Unfilled(rs, n)| ==> Unfilled(rs, n)[j] < Unfilled(rs, n)[k]
  {
    if n > 0 { UnfilledExact(rs, n - 1); }
  }

  predicate InvitesInOrder(envelopes: seq<Envelope>, below: nat) {
    && (forall j :: 0 <= j < |envelopes| ==> envelopes[j].ret.Some? && envelopes[j].ret.value.idx < below)
    && (forall j, k :: 0 <= j < k < |envelopes| ==> envelopes[j].ret.value.idx < envelopes[k].ret.value.idx)
  }

  lemma {:induction false} InvitationsOrdered(known: set<Name>, owner: Id, number: nat, ids: seq<Id>, tasks: seq<Task>, idxs: seq<nat>)
    requires |tasks| == |ids| && forall j :: 0 <= j < |idxs| ==> idxs[j] < |tasks|
    requires forall j, k :: 0 <= j < k < |idxs| ==> idxs[j] < idxs[k]
    ensures InvitesInOrder(Invitations(known, owner, number, ids, tasks, idxs), if idxs == [] then 0 else idxs[|idxs| - 1] + 1)
    decreases |idxs|
  {
    if idxs != [] { InvitationsOrdered(known, owner, number, ids, tasks, idxs[..|idxs| - 1]); }
  }

  lemma {:induction false} InvitedIff(known: set<Name>, owner: Id, number: nat, ids: seq<Id>, tasks: seq<Task>, idxs: seq<nat>, i: nat)
    requires |tasks| == |ids| && (forall j :: 0 <= j < |idxs| ==> idxs[j] < |tasks|) && i < |tasks|
    ensures ChildEnvelope(owner, number, ids, tasks, i) in Invitations(known, owner, number, ids, tasks, idxs)
            <==> i in idxs && tasks[i].fn in known
    decreases |idxs|
  {
    if idxs != [] {
      var n := |idxs| - 1;
      assert i in idxs <==> i in idxs[..n] || i == idxs[n];
      InvitedIff(known, owner, number, ids, tasks, idxs[..n], i);
    }
  }

  /** A fan-out invites exactly the children that have no result yet and whose function is deployed, each
      once and in task order, and fails exactly when such a child's function is not deployed. */
  lemma UnfilledInvited(known: set<Name>, owner: Id, number: nat, b: Batch, tasks: seq<Task>)
    requires |tasks| == |b.results| == |b.childIds|
    ensures InvitesInOrder(InvitationsFor(known, owner, number, b, tasks), |tasks|)
    ensures forall i :: 0 <= i < |tasks| ==>
              (ChildEnvelope(owner, number, b.childIds, tasks, i) in InvitationsFor(known, owner, number, b, tasks)
               <==> b.results[i].None? && tasks[i].fn in known)
    ensures FirstUnknown(known, tasks, Unfilled(b.results, |tasks|)).None?
            <==> forall i :: 0 <= i < |tasks| && b.results[i].None? ==> tasks[i].fn in known
  {
    var idxs := Unfilled(b.results, |tasks|);
    UnfilledExact(b.results, |tasks|);
    InvitationsOrdered(known, owner, number, b.childIds, tasks, idxs);
    FirstUnknownExact(known, tasks, idxs);
    forall i | 0 <= i < |tasks|
      ensures ChildEnvelope(owner, number, b.childIds, tasks, i) in InvitationsFor(known, owner, number, b, tasks)
              <==> b.results[i].None? && tasks[i].fn in known
    {
      InvitedIff(known, owner, number, b.childIds, tasks, idxs, i);
    }
  }

  lemma {:induction false} FirstUnknownExact(known: set<Name>, tasks: seq<Task>, idxs: seq<nat>)
    requires forall j :: 0 <= j < |idxs| ==> idxs[j] < |tasks|
    ensures FirstUnknown(known, tasks, idxs).None? <==> forall j :: 0 <= j < |idxs| ==> tasks[idxs[j]].fn in known
  {
    if idxs != [] {
      var n := |idxs| - 1;
      FirstUnknownExact(known, tasks, idxs[..n]);
      assert forall j :: 0 <= j < n ==> idxs[..n][j] == idxs[j];
    }
  }

  lemma {:induction false} AllUnfilled(rs: seq<Option<Result>>, n: nat)
    requires n <= |rs| && forall i :: 0 <= i < |rs| ==> rs[i].None?
    ensures |Unfilled(rs, n)| == n && forall i :: 0 <= i < n ==> Unfilled(rs, n)[i] == i
  {
    if n > 0 { AllUnfilled(rs, n - 1); }
  }

  lemma {:induction false} AllInvitedInOrder(known: set<Name>, owner: Id, number: nat, ids: seq<Id>, tasks: seq<Task>, idxs: seq<nat>)
    requires |tasks| == |ids| && forall j :: 0 <= j < |idxs| ==> idxs[j] < |tasks| && tasks[idxs[j]].fn in known
    ensures var sent := Invitations(known, owner, number, ids, tasks, idxs);
            |sent| == |idxs| && forall j :: 0 <= j < |idxs| ==> sent[j] == ChildEnvelope(owner, number, ids, tasks, idxs[j])
    decreases |idxs|
  {
    if idxs != [] {
      var n := |idxs| - 1;
      assert forall j :: 0 <= j < n ==> idxs[..n][j] == idxs[j];
      AllInvitedInOrder(known, owner, number, ids, tasks, idxs[..n]);
      assert Invitations(known, owner, number, ids, tasks, idxs) ==
             Invitations(known, owner, number, ids, tasks, idxs[..n]) + [ChildEnvelope(owner, number, ids, tasks, idxs[n])];
    }
  }

  /** `runAll` up to the moment the invitations go out. */
  function Register(s: State, n: nat, callback: Name, state: Value): State {
    var b := OpenBatch(s.id, s.runCounter, n, callback, state, s.cached);
    var s1 := s.(runCounter := s.runCounter + n, batchCounter := s.batchCounter + 1);
    if b.pending == 0 then s1
    else EnsureInbox(Persist(s1.(batches := s1.batches[s.batchCounter := b])))
  }

  function RunAllState(s: State, tasks: seq<Task>, callback: Name, state: Value): State {
    if tasks == [] then s
    else
      var b := OpenBatch(s.id, s.runCounter, |tasks|, callback, state, s.cached);
      var s1 := Register(s, |tasks|, callback, state);
      if b.pending == 0 then s1
      else s1.(sent := s1.sent + InvitationsFor(s.known, s.id, s.batchCounter, b, tasks))
  }

  /** How a `runAll` call goes on: the callback is called aside with no results and its value dropped, it
      is called at once with cached results, the batch waits, or the call throws. */
  datatype Started = CalledAside | CallNow(results: seq<Result>) | Waiting | Unknown(fn: Name)

  function StartedWith(known: set<Name>, b: Batch, tasks: seq<Task>): Started
    requires |tasks| == |b.results|
  {
    if forall i :: 0 <= i < |b.results| ==> b.results[i].Some? then CallNow(Filled(b.results))
    else
      match FirstUnknown(known, tasks, Unfilled(b.results, |b.results|))
      case Some(fn) => Unknown(fn)
      case None => Waiting
  }

  function StartedBy(s: State, tasks: seq<Task>, callback: Name, state: Value): Started {
    if tasks == [] then CalledAside
    else StartedWith(s.known, OpenBatch(s.id, s.runCounter, |tasks|, callback, state, s.cached), tasks)
  }

  /** The next but `i` child of `s` has a cached result. */
  predicate NextCached(s: State, i: nat) {
    Child(s.id, s.runCounter + i) in s.cached
  }

  predicate AllCached(s: State, n: nat) {
    forall i: nat :: i < n ==> NextCached(s, i)
  }

  /** Child `i` of a fan-out of `tasks` has no result yet, and its function is not deployed. */
  predicate Undeployed(s: State, tasks: seq<Task>, i: nat)
    requires i < |tasks|
  {
    !NextCached(s, i) && tasks[i].fn !in s.known
  }

  /** The batch of the next fan-out has a slot filled exactly when that child's result is cached, with that result. */
  predicate FilledFromCache(s: State, b: Batch) {
    forall i: nat :: i < |b.results| ==>
      (b.results[i].Some? <==> NextCached(s, i)) && (NextCached(s, i) ==> b.results[i].value == s.cached[Child(s.id, s.runCounter + i)])
  }

  lemma NextBatchFilled(s: State, n: nat, callback: Name, state: Value, b: Batch)
    requires b == OpenBatch(s.id, s.runCounter, n, callback, state, s.cached)
    ensures |b.results| == n && FilledFromCache(s, b)
    ensures (forall i :: 0 <= i < n ==> b.results[i].Some?) <==> AllCached(s, n)
    ensures b.pending == 0 <==> AllCached(s, n)
  {
    MissingZero(b.results);
    forall i: nat | i < n
      ensures b.results[i].Some? <==> NextCached(s, i)
      ensures NextCached(s, i) ==> b.results[i].value == s.cached[Child(s.id, s.runCounter + i)]
    {
      assert b.childIds[i] == Child(s.id, s.runCounter + i);
    }
  }

  lemma {:induction false} FirstUnknownIs(known: set<Name>, tasks: seq<Task>, idxs: seq<nat>) returns (k: nat)
    requires (forall j :: 0 <= j < |idxs| ==> idxs[j] < |tasks|) && FirstUnknown(known, tasks, idxs).Some?
    ensures k < |idxs| && tasks[idxs[k]].fn !in known && FirstUnknown(known, tasks, idxs).value == tasks[idxs[k]].fn
    ensures forall j :: 0 <= j < k ==> tasks[idxs[j]].fn in known
    decreases |idxs|
  {
    var n := |idxs| - 1;
    assert forall j :: 0 <= j < n ==> idxs[..n][j] == idxs[j];
    if FirstUnknown(known, tasks, idxs[..n]).Some? {
      k := FirstUnknownIs(known, tasks, idxs[..n]);
    } else {
      k := n;
      FirstUnknownExact(known, tasks, idxs[..n]);
    }
  }

  /** The callback is called at once exactly when there are tasks and every child is cached, and then each
      child's cached result is in its own slot, both counters go on, and nothing is written or sent. */
  lemma CalledAtOnce(s: State, tasks: seq<Task>, callback: Name, state: Value, started: Started)
    requires started == StartedBy(s, tasks, callback, state)
    ensures started.CallNow? <==> tasks != [] && AllCached(s, |tasks|)
    ensures started.CallNow? ==> |started.results| == |tasks|
    ensures started.CallNow? ==> forall i: nat :: i < |tasks| ==>
              NextCached(s, i) && started.results[i] == s.cached[Child(s.id, s.runCounter + i)]
    ensures started.CallNow? ==>
              RunAllState(s, tasks, callback, state) == s.(runCounter := s.runCounter + |tasks|, batchCounter := s.batchCounter + 1)
  {
    if tasks != [] {
      NextBatchFilled(s, |tasks|, callback, state, OpenBatch(s.id, s.runCounter, |tasks|, callback, state, s.cached));
    }
  }

  /** In all other cases nothing is called with results: an empty list changes nothing, the first child
      that is neither cached nor deployed makes the call fail, and otherwise the batch waits. */
  lemma NotCalledAtOnce(s: State, tasks: seq<Task>, callback: Name, state: Value, started: Started)
    requires started == StartedBy(s, tasks, callback, state)
    ensures started == CalledAside <==> tasks == []
    ensures tasks == [] ==> RunAllState(s, tasks, callback, state) == s
    ensures started.Unknown? ==> exists i: nat :: FailsAt(s, tasks, i) && started.fn == tasks[i].fn
    ensures started == Waiting <==>
              tasks != [] && !AllCached(s, |tasks|) && forall i :: 0 <= i < |tasks| ==> !Undeployed(s, tasks, i)
  {
    if tasks != [] {
      var b := OpenBatch(s.id, s.runCounter, |tasks|, callback, state, s.cached);
      NextBatchFilled(s, |tasks|, callback, state, b);
      FailsAtFirst(s, tasks, b);
    }
  }

  predicate FailsAt(s: State, tasks: seq<Task>, i: nat) {
    i < |tasks| && Undeployed(s, tasks, i) && forall j :: 0 <= j < i ==> !Undeployed(s, tasks, j)
  }

  lemma FailsAtFirst(s: State, tasks: seq<Task>, b: Batch)
    requires |tasks| == |b.results| && FilledFromCache(s, b)
    ensures var failed := FirstUnknown(s.known, tasks, Unfilled(b.results, |tasks|));
            && (failed.None? <==> forall i :: 0 <= i < |tasks| ==> !Undeployed(s, tasks, i))
            && (failed.Some? ==> exists i: nat :: FailsAt(s, tasks, i) && failed.value == tasks[i].fn)
  {
    var idxs := Unfilled(b.results, |tasks|);
    WaitingSlots(s, b, |tasks|, idxs);
    if FirstUnknown(s.known, tasks, idxs).Some? {
      var k := FirstUnknownIs(s.known, tasks, idxs);
      NoneBefore(s, tasks, idxs, k);
    } else {
      NoneFails(s, tasks, idxs);
    }
  }

  lemma WaitingSlots(s: State, b: Batch, n: nat, idxs: seq<nat>)
    requires n == |b.results| && FilledFromCache(s, b) && idxs == Unfilled(b.results, n)
    ensures forall i: nat :: i < n ==> (i in idxs <==> !NextCached(s, i))
    ensures forall j, l :: 0 <= j < l < |idxs| ==> idxs[j] < idxs[l]
  {
    UnfilledExact(b.results, n);
  }

  lemma NoneFails(s: State, tasks: seq<Task>, idxs: seq<nat>)
    requires (forall j :: 0 <= j < |idxs| ==> idxs[j] < |tasks|) && FirstUnknown(s.known, tasks, idxs).None?
    requires forall i: nat :: i < |tasks| ==> (i in idxs <==> !NextCached(s, i))
    ensures forall i :: 0 <= i < |tasks| ==> !Undeployed(s, tasks, i)
  {
    FirstUnknownExact(s.known, tasks, idxs);
    forall i: nat | i < |tasks| ensures !Undeployed(s, tasks, i) {
      if i in idxs { var l :| 0 <= l < |idxs| && idxs[l] == i; }
    }
  }

  lemma NoneBefore(s: State, tasks: seq<Task>, idxs: seq<nat>, k: nat)
    requires k < |idxs| && (forall j :: 0 <= j < |idxs| ==> idxs[j] < |tasks|)
    requires forall i: nat :: i < |tasks| ==> (i in idxs <==> !NextCached(s, i))
    requires forall j, l :: 0 <= j < l < |idxs| ==> idxs[j] < idxs[l]
    requires tasks[idxs[k]].fn !in s.known && forall j :: 0 <= j < k ==> tasks[idxs[j]].fn in s.known
    ensures FailsAt(s, tasks, idxs[k])
  {
    assert idxs[k] in idxs;
    forall j: nat | j < idxs[k] ensures !Undeployed(s, tasks, j) {
      if j in idxs {
        var l :| 0 <= l < |idxs| && idxs[l] == j;
        assert l < k;
      }
    }
  }

  /** A matched reply: `fanOutId`, `fanOutTotal`, `invocationId` and the result. */
  datatype Matched = Matched(number: nat, idx: nat, from: Id, res: Result)

  predicate Matches(s: State, m: Matched) {
    m.number in s.batches && m.idx < |s.batches[m.number].results|
  }

  /** Recording one matched reply: slot, `resolvedResults`, snapshot, and the batch leaves the
      active ones when nothing is pending any more. */
  function RecordState(s: State, m: Matched): State
    requires Matches(s, m)
  {
    var b := Record(s.batches[m.number], m.idx, m.res);
    var s1 := Persist(s.(batches := s.batches[m.number := b], resolved := s.resolved[m.from := m.res]));
    if b.pending == 0 then s1.(batches := s1.batches - {m.number}) else s1
  }

  function RestoreBatch(saved: SavedBatch, cached: map<Id, Result>): Batch {
    var rs := Lookup(cached, saved.childIds);
    Batch(Missing(rs), rs, saved.callback, saved.state, saved.childIds)
  }

  /** A re-invocation starts from a snapshot; the queues themselves are still there. */
  function Restore(id: Id, known: set<Name>, snapshot: Snapshot, agg: seq<Snapshot>, sent: seq<Envelope>): State {
    State(id, known, true, snapshot.results, snapshot.results, 0, |snapshot.batches|,
          map n | n in snapshot.batches :: RestoreBatch(snapshot.batches[n], snapshot.results), false, agg, sent)
  }

  // ---- readAggQueue ----

  /** A message of the aggregation queue: unparsable, or a snapshot of some fan-out with the receipt handle
      under which it can be deleted. */
  datatype AggMessage = Malformed | Written(fanOut: Id, snapshot: Snapshot, receipt: nat)

  function Count(best: Option<Snapshot>): int {
    if best.Some? then |best.value.results| else -1
  }

  /** The first snapshot with the most results. */
  function Best(snaps: seq<Snapshot>): Option<Snapshot> {
    if snaps == [] then None
    else
      var best := Best(snaps[..|snaps| - 1]);
      var s := snaps[|snaps| - 1];
      if |s.results| > Count(best) then Some(s) else best
  }

  /** The snapshots of invocation `id` among the messages received, in receive order. */
  function Received(msgs: seq<AggMessage>, id: Id): seq<Snapshot> {
    if msgs == [] then []
    else
      var m := msgs[|msgs| - 1];
      Received(msgs[..|msgs| - 1], id) + (if m.Written? && m.fanOut == id then [m.snapshot] else [])
  }

  /** The receipt handles of these snapshots; foreign and malformed messages are left alone. */
  function Receipts(msgs: seq<AggMessage>, id: Id): seq<nat> {
    if msgs == [] then []
    else
      var m := msgs[|msgs| - 1];
      Receipts(msgs[..|msgs| - 1], id) + (if m.Written? && m.fanOut == id then [m.receipt] else [])
  }

  function Flatten<T>(receives: seq<seq<T>>): seq<T> {
    if receives == [] then [] else Flatten(receives[..|receives| - 1]) + receives[|receives| - 1]
  }

  /** `snaps[i]` is largest, and the earliest largest. */
  predicate FirstLargest(snaps: seq<Snapshot>, i: nat) {
    && i < |snaps|
    && (forall j :: 0 <= j < |snaps| ==> |snaps[j].results| <= |snaps[i].results|)
    && (forall j :: 0 <= j < i ==> |snaps[j].results| < |snaps[i].results|)
  }

  /** What `Best` means: of all the snapshots seen, the earliest that no other exceeds. */
  lemma {:induction false} BestIsFirstLargest(snaps: seq<Snapshot>) returns (i: nat)
    ensures Best(snaps).None? <==> snaps == []
    ensures snaps != [] ==> FirstLargest(snaps, i) && Best(snaps) == Some(snaps[i])
    decreases |snaps|
  {
    i := 0;
    if snaps != [] {
      var n := |snaps| - 1;
      i := BestIsFirstLargest(snaps[..n]);
      assert forall j :: 0 <= j < n ==> snaps[j] == snaps[..n][j];
      if n == 0 || |snaps[n].results| > |snaps[i].results| {
        i := n;
      }
    }
  }

  lemma {:induction false} ReceivedAppend(msgs: seq<AggMessage>, more: seq<AggMessage>, id: Id)
    ensures Received(msgs + more, id) == Received(msgs, id) + Received(more, id)
    ensures Receipts(msgs + more, id) == Receipts(msgs, id) + Receipts(more, id)
    decreases |more|
  {
    if more == [] {
      assert msgs + more == msgs;
    } else {
      var n := |more| - 1;
      assert (msgs + more)[..|msgs + more| - 1] == msgs + more[..n];
      ReceivedAppend(msgs, more[..n], id);
    }
  }

  // ---- The program ----

  class Context {
    const id: Id
    const known: set<Name>
    const restored: bool
    var cached: map<Id, Result>
    var resolved: map<Id, Result>
    var runCounter: nat
    var batchCounter: nat
    var batches: map<nat, Batch>
    var queuesOpen: bool
    var agg: seq<Snapshot>
    var sent: seq<Envelope>

    ghost function Abs(): State
      reads this
    {
      State(id, known, restored, cached, resolved, runCounter, batchCounter, batches, queuesOpen, agg, sent)
    }

    /** A first invocation. */
    constructor First(id: Id, known: set<Name>)
      ensures Abs() == Fresh(id, known)
    {
      this.id, this.known, restored := id, known, false;
      cached, resolved := map[], map[];
      runCounter, batchCounter, batches := 0, 0, map[];
      queuesOpen, agg, sent := false, [], [];
    }

    /** A re-invocation: every saved batch is rebuilt from the results of the snapshot. */
    constructor Again(id: Id, known: set<Name>, snapshot: Snapshot, agg: seq<Snapshot>, sent: seq<Envelope>)
      ensures Abs() == Restore(id, known, snapshot, agg, sent)
    {
      this.id, this.known, restored := id, known, true;
      cached, resolved := snapshot.results, snapshot.results;
      var rebuilt := RebuildAll(snapshot);
      runCounter, batchCounter, batches := 0, |rebuilt|, rebuilt;
      queuesOpen, this.agg, this.sent := false, agg, sent;
      assert rebuilt.Keys == snapshot.batches.Keys;
      assert |rebuilt.Keys| == |snapshot.batches.Keys|;
    }

    static method RebuildAll(snapshot: Snapshot) returns (rebuilt: map<nat, Batch>)
      ensures rebuilt == map n | n in snapshot.batches :: RestoreBatch(snapshot.batches[n], snapshot.results)
    {
      rebuilt := map[];
      var todo := snapshot.batches.Keys;
      while todo != {}
        invariant todo <= snapshot.batches.Keys
        invariant rebuilt.Keys == snapshot.batches.Keys - todo
        invariant forall n :: n in rebuilt ==> rebuilt[n] == RestoreBatch(snapshot.batches[n], snapshot.results)
        decreases todo
      {
        var n :| n in todo;
        var b := RebuildBatch(snapshot.batches[n], snapshot.results);
        rebuilt := rebuilt[n := b];
        todo := todo - {n};
      }
    }

    /** Children with a cached result fill their slots, the others are counted as pending. */
    static method RebuildBatch(saved: SavedBatch, cached: map<Id, Result>) returns (b: Batch)
      ensures b == RestoreBatch(saved, cached)
    {
      var results, pending, _ := Partition(saved.childIds, cached);
      b := Batch(pending, results, saved.callback, saved.state, saved.childIds);
    }

    /** Splits children into those with a cached result and those still to come. */
    static method Partition(childIds: seq<Id>, cached: map<Id, Result>)
        returns (results: seq<Option<Result>>, pending: nat, waiting: seq<nat>)
      ensures results == Lookup(cached, childIds)
      ensures pending == Missing(results) == |waiting|
      ensures waiting == Unfilled(results, |results|)
    {
      results, pending, waiting := [], 0, [];
      ghost var target := Lookup(cached, childIds);
      for i := 0 to |childIds|
        invariant results == target[..i]
        invariant pending == Missing(results) == |waiting|
        invariant waiting == Unfilled(target, i)
      {
        ghost var before := results;
        if childIds[i] in cached {
          results := results + [Some(cached[childIds[i]])];
        } else {
          results := results + [None];
          pending := pending + 1;
          waiting := waiting + [i];
        }
        assert results[..|results| - 1] == before;
      }
      assert results == target;
    }

    method PersistState()
      modifies this`agg
      ensures Abs() == Persist(old(Abs()))
    {
      if !queuesOpen { return; }
      agg := agg + [Snapshot(resolved, Save(batches))];
    }

    method OpenQueues()
      modifies this`queuesOpen, this`agg
      ensures Abs() == EnsureInbox(old(Abs()))
    {
      if queuesOpen { return; }
      queuesOpen := true;
      if !restored {
        PersistState();
      }
    }

    static method NewChildIds(id: Id, runCounter: nat, n: nat) returns (childIds: seq<Id>)
      ensures childIds == ChildIds(id, runCounter, n)
    {
      childIds := [];
      for i := 0 to n
        invariant childIds == ChildIds(id, runCounter, n)[..i]
      {
        childIds := childIds + [Child(id, runCounter + i)];
      }
    }

    method RunAll(tasks: seq<Task>, callback: Name, state: Value) returns (started: Started)
      modifies this
      ensures Abs() == RunAllState(old(Abs()), tasks, callback, state)
      ensures started == StartedBy(old(Abs()), tasks, callback, state)
    {
      if tasks == [] { return CalledAside; }
      var number, b, waiting := Prepare(|tasks|, callback, state);
      MissingZero(b.results);
      if b.pending == 0 {
        return CallNow(Filled(b.results));
      }
      var failed := FanOut(number, b, tasks, waiting);
      started := if failed.Some? then Unknown(failed.value) else Waiting;
    }

    /** Takes the next batch number and child ids, and looks up what is cached. */
    method Prepare(n: nat, callback: Name, state: Value) returns (number: nat, b: Batch, waiting: seq<nat>)
      modifies this`runCounter, this`batchCounter
      ensures var s := old(Abs());
              && Abs() == s.(runCounter := s.runCounter + n, batchCounter := s.batchCounter + 1)
              && number == s.batchCounter && b == OpenBatch(s.id, s.runCounter, n, callback, state, s.cached)
      ensures waiting == Unfilled(b.results, |b.results|)
    {
      number := batchCounter;
      batchCounter := batchCounter + 1;
      var childIds := NewChildIds(id, runCounter, n);
      runCounter := runCounter + n;
      var results, pending;
      results, pending, waiting := Partition(childIds, cached);
      b := Batch(pending, results, callback, state, childIds);
    }

    method FanOut(number: nat, b: Batch, tasks: seq<Task>, waiting: seq<nat>) returns (failed: Option<Name>)
      requires |tasks| == |b.results| == |b.childIds| && waiting == Unfilled(b.results, |b.results|)
      modifies this`batches, this`queuesOpen, this`agg, this`sent
      ensures var s := old(Abs());
              var s' := EnsureInbox(Persist(s.(batches := s.batches[number := b])));
              Abs() == s'.(sent := s'.sent + InvitationsFor(s.known, s.id, number, b, tasks))
      ensures failed == FirstUnknown(known, tasks, waiting)
    {
      Enrol(number, b);
      failed := Dispatch(number, b.childIds, tasks, waiting);
    }

    /** Registers the batch and makes it durable. */
    method Enrol(number: nat, b: Batch)
      modifies this`batches, this`queuesOpen, this`agg
      ensures var s := old(Abs()); Abs() == EnsureInbox(Persist(s.(batches := s.batches[number := b])))
    {
      batches := batches[number := b];
      PersistState();
      OpenQueues();
    }

    /** Sends the invitation of every waiting task. A task whose function is not deployed fails the call
        without holding back the others. */
    method Dispatch(number: nat, ids: seq<Id>, tasks: seq<Task>, waiting: seq<nat>) returns (failed: Option<Name>)
      requires |tasks| == |ids| && forall j :: 0 <= j < |waiting| ==> waiting[j] < |tasks|
      modifies this`sent
      ensures var s := old(Abs()); Abs() == s.(sent := s.sent + Invitations(known, id, number, ids, tasks, waiting))
      ensures failed == FirstUnknown(known, tasks, waiting)
    {
      failed := None;
      for k := 0 to |waiting|
        invariant sent == old(sent) + Invitations(known, id, number, ids, tasks, waiting[..k])
        invariant failed == FirstUnknown(known, tasks, waiting[..k])
      {
        assert waiting[..k + 1][..k] == waiting[..k];
        if tasks[waiting[k]].fn in known {
          sent := sent + [ChildEnvelope(id, number, ids, tasks, waiting[k])];
        } else if failed.None? {
          failed := Some(tasks[waiting[k]].fn);
        }
      }
      assert waiting[..|waiting|] == waiting;
    }

    /** One poll iteration records its matched replies in order, up to and including the first that
        completes a batch. That batch's callback runs before the next reply is recorded, by the next call on
        `ms[taken..]`; if it throws there is no next call. Replies to batches that are gone are put back. */
    method RecordMatched(ms: seq<Matched>) returns (taken: nat, closed: Option<Batch>)
      modifies this
      ensures taken <= |ms|
      ensures Abs() == RecordAll(EnsureInbox(old(Abs())), ms[..taken])
      ensures closed.None? ==> taken == |ms| && ClosedBy(EnsureInbox(old(Abs())), ms) == []
      ensures closed.Some? ==> taken > 0 && ClosedBy(EnsureInbox(old(Abs())), ms[..taken - 1]) == []
      ensures closed.Some? ==> ClosedBy(EnsureInbox(old(Abs())), ms[..taken]) == [closed.value]
    {
      OpenQueues();
      ghost var s := Abs();
      closed := None;
      for i := 0 to |ms|
        invariant Abs() == RecordAll(s, ms[..i])
        invariant ClosedBy(s, ms[..i]) == []
      {
        assert ms[..i + 1][..i] == ms[..i] && ms[..i + 1][i] == ms[i];
        var m := ms[i];
        if m.number in batches && m.idx < |batches[m.number].results| {
          var b := RecordOne(m);
          if b.pending == 0 {
            return i + 1, Some(b);
          }
        }
      }
      assert ms[..|ms|] == ms;
      taken := |ms|;
    }

    method RecordOne(m: Matched) returns (b: Batch)
      requires Matches(Abs(), m)
      modifies this`batches, this`resolved, this`agg
      ensures b == Record(old(batches)[m.number], m.idx, m.res)
      ensures Abs() == RecordState(old(Abs()), m)
    {
      b := Record(batches[m.number], m.idx, m.res);
      batches := batches[m.number := b];
      resolved := resolved[m.from := m.res];
      PersistState();
      if b.pending == 0 {
        batches := batches - {m.number};
      }
    }

    /** The receive loop of `readAggQueue`: batches of at most ten messages until one comes back empty. */
    static method ReadAggQueue(receives: seq<seq<AggMessage>>, id: Id)
        returns (snapshot: Option<Snapshot>, handles: seq<nat>)
      ensures snapshot == Best(Received(Flatten(receives), id))
      ensures handles == Receipts(Flatten(receives), id)
    {
      snapshot, handles := None, [];
      for r := 0 to |receives|
        invariant snapshot == Best(Received(Flatten(receives[..r]), id))
        invariant handles == Receipts(Flatten(receives[..r]), id)
      {
        assert receives[..r + 1][..r] == receives[..r];
        ReceivedAppend(Flatten(receives[..r]), receives[r], id);
        var more: seq<nat>;
        snapshot, more := Absorb(receives[r], id, snapshot, Received(Flatten(receives[..r]), id));
        handles := handles + more;
      }
      assert receives[..|receives|] == receives;
    }

    static method Absorb(msgs: seq<AggMessage>, id: Id, best: Option<Snapshot>, ghost seen: seq<Snapshot>)
        returns (snapshot: Option<Snapshot>, handles: seq<nat>)
      requires best == Best(seen)
      ensures snapshot == Best(seen + Received(msgs, id)) && handles == Receipts(msgs, id)
    {
      snapshot, handles := best, [];
      assert seen + Received(msgs[..0], id) == seen;
      for i := 0 to |msgs|
        invariant snapshot == Best(seen + Received(msgs[..i], id)) && handles == Receipts(msgs[..i], id)
      {
        var m := msgs[i];
        AbsorbStep(msgs, i, id, seen);
        if m.Written? && m.fanOut == id {
          handles := handles + [m.receipt];
          if |m.snapshot.results| > Count(snapshot) {
            snapshot := Some(m.snapshot);
          }
        }
      }
      assert msgs[..|msgs|] == msgs;
    }
  }

  lemma AbsorbStep(msgs: seq<AggMessage>, i: nat, id: Id, seen: seq<Snapshot>)
    requires i < |msgs|
    ensures var best := Best(seen + Received(msgs[..i], id));
            Best(seen + Received(msgs[..i + 1], id)) ==
              if msgs[i].Written? && msgs[i].fanOut == id && |msgs[i].snapshot.results| > Count(best)
              then Some(msgs[i].snapshot) else best
    ensures Receipts(msgs[..i + 1], id) ==
              Receipts(msgs[..i], id) + if msgs[i].Written? && msgs[i].fanOut == id then [msgs[i].receipt] else []
  {
    var m, before := msgs[i], seen + Received(msgs[..i], id);
    assert msgs[..i + 1][..i] == msgs[..i];
    if m.Written? && m.fanOut == id {
      assert seen + Received(msgs[..i + 1], id) == before + [m.snapshot];
      assert (before + [m.snapshot])[..|before|] == before;
    } else {
      assert seen + Received(msgs[..i + 1], id) == before;
    }
  }

  function RecordAll(s: State, ms: seq<Matched>): State {
    if ms == [] then s
    else
      var s1 := RecordAll(s, ms[..|ms| - 1]);
      if Matches(s1, ms[|ms| - 1]) then RecordState(s1, ms[|ms| - 1]) else s1
  }

  function ClosedBy(s: State, ms: seq<Matched>): seq<Batch> {
    if ms == [] then []
    else
      var s1 := RecordAll(s, ms[..|ms| - 1]);
      var m := ms[|ms| - 1];
      ClosedBy(s, ms[..|ms| - 1])
      + (if Matches(s1, m) && Record(s1.batches[m.number], m.idx, m.res).pending == 0
         then [Record(s1.batches[m.number], m.idx, m.res)] else [])
  }

  /** Recording goes on where it was interrupted: piecewise it is the whole loop. */
  lemma {:induction false} RecordAllAppend(s: State, ms: seq<Matched>, more: seq<Matched>)
    ensures RecordAll(s, ms + more) == RecordAll(RecordAll(s, ms), more)
    ensures ClosedBy(s, ms + more) == ClosedBy(s, ms) + ClosedBy(RecordAll(s, ms), more)
    decreases |more|
  {
    if more == [] {
      assert ms + more == ms;
    } else {
      var n := |more| - 1;
      assert (ms + more)[..|ms + more| - 1] == ms + more[..n];
      RecordAllAppend(s, ms, more[..n]);
    }
  }
}
