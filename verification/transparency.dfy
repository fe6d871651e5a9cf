// One fan-out under crashes: the parent may be killed between poll iterations any number of times.
module Transparency {
  import opened Wrappers
  import opened Programs
  import opened Contexts
  import opened FnContext
  import opened Recovery

  /** The fan-out of one invocation, with the result each child will reply and the invocation id
      that reply will carry. */
  datatype Scenario = Scenario(
    id: Id, known: set<Name>, tasks: seq<Task>, callback: Name, state: Value, from: seq<Id>, res: seq<Result>)
  {
    predicate Valid() {
      && |tasks| == |from| == |res| && tasks != []
      && (forall i :: 0 <= i < |tasks| ==> tasks[i].fn in known)
      && (forall i, j :: 0 <= i < j < |from| ==> from[i] != from[j])
      && (forall i :: 0 <= i < |from| ==> from[i] == Child(id, i) || from[i].Uuid?)
    }

    /** Child `i` replied itself; a child that chained by `next` replies under a fresh UUID. */
    predicate Direct(i: nat)
      requires i < |from|
    {
      from[i] == Child(id, i)
    }

    predicate AllDirect() {
      forall i :: 0 <= i < |from| ==> Direct(i)
    }

    function Reply(i: nat): Matched
      requires i < |from| == |res|
    {
      Matched(0, i, from[i], res[i])
    }
  }

  /** The parent's state, the children that have not replied, the replies in the inbox, and the
      `results` arrays its callback has been called with. */
  datatype World = World(st: State, silent: set<nat>, inbox: set<nat>, calls: seq<seq<Result>>)

  function Indices(n: nat): (s: set<nat>)
    ensures forall i: nat :: i in s <==> i < n
  {
    if n == 0 then {} else Indices(n - 1) + {n - 1}
  }

  /** The handler has run and issued its one `runAll`. */
  function Begin(sc: Scenario): World {
    World(RunAllState(Fresh(sc.id, sc.known), sc.tasks, sc.callback, sc.state), Indices(|sc.tasks|), {}, [])
  }

  function Answer(w: World, i: nat): World {
    w.(silent := w.silent - {i}, inbox := w.inbox + {i})
  }

  /** Receives, deletes, records and persists the reply of child `i`, and calls back when full. */
  function Take(sc: Scenario, w: World, i: nat): World
    requires i < |sc.from| == |sc.res|
  {
    var m := sc.Reply(i);
    if Matches(w.st, m) then
      var b := Record(w.st.batches[0], i, sc.res[i]);
      World(RecordState(w.st, m), w.silent, w.inbox - {i},
            if b.pending == 0 && forall j :: 0 <= j < |b.results| ==> b.results[j].Some?
            then w.calls + [Filled(b.results)] else w.calls)
    else w
  }

  function TakeAll(sc: Scenario, w: World, js: seq<nat>): World
    requires |sc.from| == |sc.res| && forall k :: 0 <= k < |js| ==> js[k] < |sc.from|
  {
    if js == [] then w else Take(sc, TakeAll(sc, w, js[..|js| - 1]), js[|js| - 1])
  }

  /** One poll iteration over up to ten messages of the inbox. */
  predicate CanPoll(sc: Scenario, w: World, js: seq<nat>) {
    && w.calls == []
    && 0 < |js| <= 10
    && Distinct(js)
    && (forall k :: 0 <= k < |js| ==> js[k] in w.inbox && js[k] < |sc.from|)
  }

  function Poll(sc: Scenario, w: World, js: seq<nat>): World
    requires |sc.from| == |sc.res| && CanPoll(sc, w, js)
  {
    TakeAll(sc, w.(st := EnsureInbox(w.st)), js)
  }

  /** The parent is killed while waiting and its envelope is delivered again. */
  predicate CanCrash(w: World, seen: seq<Snapshot>) {
    w.calls == [] && multiset(seen) == multiset(w.st.agg)
  }

  function CrashAndReturn(w: World, seen: seq<Snapshot>): World {
    w.(st := Reinvoke(w.st, seen))
  }

  ghost predicate Crashes(w: World, w': World) {
    exists seen :: CanCrash(w, seen) && w' == CrashAndReturn(w, seen)
  }

  ghost predicate Step(sc: Scenario, w: World, w': World)
    requires |sc.from| == |sc.res|
  {
    || (exists i :: i in w.silent && w' == Answer(w, i))
    || (exists js :: CanPoll(sc, w, js) && w' == Poll(sc, w, js))
    || Crashes(w, w')
  }

  ghost predicate StepTo(sc: Scenario, ws: seq<World>, i: nat)
    requires |sc.from| == |sc.res| && 0 < i < |ws|
  {
    Step(sc, ws[i - 1], ws[i])
  }

  ghost predicate IsRun(sc: Scenario, ws: seq<World>)
    requires |sc.from| == |sc.res|
  {
    && ws != [] && ws[0] == Begin(sc)
    && forall i :: 0 < i < |ws| ==> StepTo(sc, ws, i)
  }

  // ---- The poll is the program's ----

  function Replies(sc: Scenario, js: seq<nat>): seq<Matched>
    requires |sc.from| == |sc.res| && forall k :: 0 <= k < |js| ==> js[k] < |sc.from|
  {
    seq(|js|, k requires 0 <= k < |js| => sc.Reply(js[k]))
  }

  lemma {:induction false} PollIsRecordMatched(sc: Scenario, w: World, js: seq<nat>)
    requires |sc.from| == |sc.res| && forall k :: 0 <= k < |js| ==> js[k] < |sc.from|
    ensures TakeAll(sc, w, js).st == RecordAll(w.st, Replies(sc, js))
    decreases |js|
  {
    if js != [] {
      PollIsRecordMatched(sc, w, js[..|js| - 1]);
      assert Replies(sc, js)[..|js| - 1] == Replies(sc, js[..|js| - 1]);
    }
  }

  // ---- The invariant ----

  predicate Recorded(sc: Scenario, w: World, i: nat) {
    i < |sc.tasks| && i !in w.silent && i !in w.inbox
  }

  predicate ResolvedOk(sc: Scenario, w: World)
    requires sc.Valid()
  {
    && (forall i :: 0 <= i < |sc.tasks| ==> (sc.from[i] in w.st.resolved <==> Recorded(sc, w, i)))
    && (forall i :: 0 <= i < |sc.tasks| && Recorded(sc, w, i) ==> w.st.resolved[sc.from[i]] == sc.res[i])
    && (forall k :: k in w.st.resolved ==> k in sc.from)
  }

  /** A slot holds nothing but its own child's recorded reply; that of a child that replied itself is there. */
  predicate SlotOk(sc: Scenario, w: World, i: nat, r: Option<Result>)
    requires sc.Valid() && i < |sc.tasks|
  {
    && (r.Some? ==> Recorded(sc, w, i) && r.value == sc.res[i])
    && (Recorded(sc, w, i) && sc.Direct(i) ==> r.Some?)
  }

  predicate BatchOk(sc: Scenario, w: World, b: Batch)
    requires sc.Valid()
  {
    && b.callback == sc.callback && b.state == sc.state && b.childIds == ChildIds(sc.id, 0, |sc.tasks|)
    && b.pending == Missing(b.results) > 0
    && |b.results| == |sc.tasks|
    && (forall i :: 0 <= i < |sc.tasks| ==> SlotOk(sc, w, i, b.results[i]))
  }

  function SavedOf(sc: Scenario): map<nat, SavedBatch> {
    map[0 := SavedBatch(sc.callback, sc.state, ChildIds(sc.id, 0, |sc.tasks|))]
  }

  function FirstBatch(sc: Scenario): Batch {
    OpenBatch(sc.id, 0, |sc.tasks|, sc.callback, sc.state, map[])
  }

  function AllInvited(sc: Scenario): seq<Envelope> {
    InvitationsFor(sc.known, sc.id, 0, FirstBatch(sc), sc.tasks)
  }

  predicate CountersOk(sc: Scenario, st: State) {
    && st.batchCounter == 1
    && if st.restored then st.runCounter == 0 else st.queuesOpen && st.runCounter == |sc.tasks| && st.cached == map[]
  }

  ghost predicate Sound(sc: Scenario, w: World)
    requires sc.Valid()
  {
    && w.st.id == sc.id && w.st.known == sc.known && w.st.sent == AllInvited(sc)
    && CountersOk(sc, w.st)
    && (forall i :: i in w.silent || i in w.inbox ==> i < |sc.tasks|)
    && w.silent !! w.inbox
    && ResolvedOk(sc, w)
    && ChainOk(w.st)
    && (forall i :: 0 <= i < |w.st.agg| ==> w.st.agg[i].batches == SavedOf(sc))
    && (w.calls == [] ==> w.st.batches.Keys == {0} && BatchOk(sc, w, w.st.batches[0]))
    && (w.calls != [] ==> w.calls == [sc.res] && w.silent == {} && w.inbox == {} && w.st.batches == map[])
  }

  predicate AllIn(w: World) {
    w.silent == {} && w.inbox == {}
  }

  /** Every recorded reply is in its slot. */
  predicate Whole(sc: Scenario, w: World) {
    w.calls == [] ==>
      0 in w.st.batches && |w.st.batches[0].results| == |sc.tasks| &&
      forall i :: 0 <= i < |sc.tasks| && Recorded(sc, w, i) ==> w.st.batches[0].results[i].Some?
  }

  /** Child `i` has replied for good, and the callback still waits for it. */
  predicate Lost(sc: Scenario, w: World, i: nat) {
    && Recorded(sc, w, i) && w.calls == []
    && 0 in w.st.batches && i < |w.st.batches[0].results| && w.st.batches[0].results[i].None?
  }

  /** What every step but a crash leaves alone. */
  ghost predicate Kept(sc: Scenario, w: World, w': World) {
    && (Whole(sc, w) ==> Whole(sc, w'))
    && (forall i :: Lost(sc, w, i) ==> Lost(sc, w', i))
    && w'.st.cached == w.st.cached && w'.st.restored == w.st.restored
  }

  // ---- The beginning ----

  /** The `runAll` of a fresh invocation writes one snapshot, of its batch, and invites everybody. */
  lemma BeginState(sc: Scenario, b: Batch)
    requires sc.Valid() && b == FirstBatch(sc)
    ensures b.pending == Missing(b.results) > 0
    ensures var st := Begin(sc).st;
            && st.id == sc.id && st.known == sc.known && st.sent == AllInvited(sc) && CountersOk(sc, st) && !st.restored
            && st.resolved == map[] && st.batches == map[0 := b]
            && st.agg == [Snapshot(map[], SavedOf(sc))]
  {
    MissingAll(b.results);
    assert Save(map[0 := b]) == SavedOf(sc);
  }

  lemma NothingRecorded(sc: Scenario, w: World, b: Batch)
    requires sc.Valid() && b == FirstBatch(sc) && b.pending == Missing(b.results) > 0
    requires w.silent == Indices(|sc.tasks|) && w.st.resolved == map[]
    ensures ResolvedOk(sc, w) && BatchOk(sc, w, b) && forall i :: !Recorded(sc, w, i)
  {
  }

  lemma BeginSound(sc: Scenario, w: World)
    requires sc.Valid() && w == Begin(sc)
    ensures Sound(sc, w) && Whole(sc, w)
  {
    var b := FirstBatch(sc);
    BeginState(sc, b);
    NothingRecorded(sc, w, b);
    BeginChain(sc, w.st);
  }

  lemma BeginChain(sc: Scenario, st: State)
    requires sc.Valid() && st == Begin(sc).st
    ensures ChainOk(st)
  {
    RunAllChain(Fresh(sc.id, sc.known), sc.tasks, sc.callback, sc.state);
  }

  // ---- A reply is taken ----

  lemma EnsureInboxSound(sc: Scenario, w: World, w': World)
    requires sc.Valid() && Sound(sc, w) && w' == w.(st := EnsureInbox(w.st))
    ensures Sound(sc, w') && w'.st.queuesOpen && Kept(sc, w, w')
  {
    EnsureInboxChain(w.st);
    assert w'.st == w.st.(queuesOpen := true);
  }

  lemma TakeRecords(sc: Scenario, w: World, i: nat)
    requires sc.Valid() && Sound(sc, w) && w.calls == [] && i in w.inbox
    ensures Matches(w.st, sc.Reply(i)) && sc.from[i] !in w.st.resolved && w.st.batches[0].results[i].None?
  {
    assert SlotOk(sc, w, i, w.st.batches[0].results[i]);
  }

  lemma TakeState(sc: Scenario, w: World, i: nat, b: Batch, w': World)
    requires sc.Valid() && i < |sc.tasks| && Matches(w.st, sc.Reply(i)) && w.st.queuesOpen && w.st.batches.Keys == {0}
    requires BatchOk(sc, w, w.st.batches[0])
    requires b == Record(w.st.batches[0], i, sc.res[i]) && w' == Take(sc, w, i)
    ensures && w'.st.id == w.st.id && w'.st.known == w.st.known && w'.st.sent == w.st.sent && w'.st.queuesOpen
            && w'.st.resolved == w.st.resolved[sc.from[i] := sc.res[i]]
            && w'.st.runCounter == w.st.runCounter && w'.st.batchCounter == w.st.batchCounter
            && w'.st.restored == w.st.restored && w'.st.cached == w.st.cached
            && |w'.st.agg| == |w.st.agg| + 1 && w'.st.agg[..|w.st.agg|] == w.st.agg
            && w'.st.agg[|w.st.agg|].batches == SavedOf(sc)
            && w'.st.batches == (if b.pending == 0 then map[] else map[0 := b])
  {
    assert w.st.batches[0 := b] == map[0 := b];
    assert Save(map[0 := b]) == SavedOf(sc);
    assert map[0 := b] - {0} == map[];
  }

  lemma RecordedTaken(sc: Scenario, w: World, i: nat, w': World)
    requires i in w.inbox && i < |sc.tasks| && w.silent !! w.inbox && w'.silent == w.silent && w'.inbox == w.inbox - {i}
    ensures forall j :: Recorded(sc, w', j) <==> Recorded(sc, w, j) || j == i
  {
  }

  lemma TakeBatch(sc: Scenario, w: World, i: nat, b: Batch, w': World)
    requires sc.Valid() && i < |sc.tasks| && w.st.batches.Keys == {0} && BatchOk(sc, w, w.st.batches[0])
    requires w.calls == [] && i in w.inbox && w.silent !! w.inbox && w.st.batches[0].results[i].None?
    requires forall j :: j in w.silent || j in w.inbox ==> j < |sc.tasks|
    requires b == Record(w.st.batches[0], i, sc.res[i]) && w' == Take(sc, w, i)
    ensures b.pending == 0 ==> w'.calls == [sc.res] && w'.silent == {} && w'.inbox == {}
    ensures b.pending != 0 ==> w'.calls == [] && BatchOk(sc, w', b)
    ensures b.pending == 0 <==> forall j :: 0 <= j < |b.results| ==> b.results[j].Some?
  {
    var before := w.st.batches[0];
    ClosesWhenFull(before, i, sc.res[i]);
    RecordedTaken(sc, w, i, w');
    forall j | 0 <= j < |sc.tasks| ensures SlotOk(sc, w', j, b.results[j]) {
      assert SlotOk(sc, w, j, before.results[j]);
    }
    if b.pending == 0 {
      forall j | 0 <= j < |sc.tasks| ensures Recorded(sc, w', j) && b.results[j] == Some(sc.res[j]) {
        assert SlotOk(sc, w', j, b.results[j]);
      }
      assert Filled(b.results) == sc.res;
      assert forall j: nat :: j in w'.silent || j in w'.inbox ==> !Recorded(sc, w', j);
      assert forall j: nat :: j in w'.silent || j in w'.inbox ==> j < |sc.tasks|;
      assert w'.silent == {} && w'.inbox == {};
    }
  }

  /** All that matters of the world after a reply has been taken. */
  lemma SoundAgain(sc: Scenario, w: World, i: nat, b: Batch, w': World)
    requires sc.Valid() && Sound(sc, w) && w.calls == [] && i in w.inbox
    requires w'.st.id == w.st.id && w'.st.known == w.st.known && w'.st.sent == w.st.sent && CountersOk(sc, w'.st)
    requires |w'.st.agg| == |w.st.agg| + 1 && w'.st.agg[..|w.st.agg|] == w.st.agg
    requires w'.st.agg[|w.st.agg|].batches == SavedOf(sc)
    requires ChainOk(w'.st) && ResolvedOk(sc, w') && w'.silent == w.silent && w'.inbox == w.inbox - {i}
    requires b.pending == 0 ==> w'.calls == [sc.res] && w'.silent == {} && w'.inbox == {} && w'.st.batches == map[]
    requires b.pending != 0 ==> w'.calls == [] && w'.st.batches == map[0 := b] && BatchOk(sc, w', b)
    ensures Sound(sc, w')
  {
    forall j | 0 <= j < |w'.st.agg| ensures w'.st.agg[j].batches == SavedOf(sc) {
      if j < |w.st.agg| { assert w'.st.agg[j] == w'.st.agg[..|w.st.agg|][j]; }
    }
  }

  lemma TakeResolved(sc: Scenario, w: World, i: nat, w': World)
    requires sc.Valid() && i < |sc.tasks| && ResolvedOk(sc, w) && i in w.inbox && w.silent !! w.inbox
    requires w'.silent == w.silent && w'.inbox == w.inbox - {i} && w'.st.resolved == w.st.resolved[sc.from[i] := sc.res[i]]
    ensures ResolvedOk(sc, w')
  {
    RecordedTaken(sc, w, i, w');
  }

  lemma TakeKept(sc: Scenario, w: World, i: nat, b: Batch, w': World)
    requires 0 in w.st.batches && i < |w.st.batches[0].results| == |sc.tasks| == |sc.res| && b == Record(w.st.batches[0], i, sc.res[i])
    requires w.calls == [] && i in w.inbox && w.silent !! w.inbox
    requires w'.silent == w.silent && w'.inbox == w.inbox - {i}
    requires b.pending == 0 <==> forall j :: 0 <= j < |b.results| ==> b.results[j].Some?
    requires b.pending == 0 ==> w'.calls != []
    requires b.pending != 0 ==> w'.calls == [] && w'.st.batches == map[0 := b]
    requires w'.st.cached == w.st.cached && w'.st.restored == w.st.restored
    ensures Kept(sc, w, w')
  {
    RecordedTaken(sc, w, i, w');
    forall j: nat | Lost(sc, w, j) ensures Lost(sc, w', j) {
      assert b.results[j].None?;
    }
  }

  lemma TakeSound(sc: Scenario, w: World, i: nat, w': World)
    requires sc.Valid() && Sound(sc, w) && w.calls == [] && i in w.inbox && w.st.queuesOpen && w' == Take(sc, w, i)
    ensures Sound(sc, w') && w'.st.queuesOpen && Kept(sc, w, w')
    ensures w'.inbox == w.inbox - {i} && w'.silent == w.silent
  {
    var b := Record(w.st.batches[0], i, sc.res[i]);
    TakeRecords(sc, w, i);
    RecordChain(w.st, sc.Reply(i));
    TakeState(sc, w, i, b, w');
    TakeBatch(sc, w, i, b, w');
    TakeResolved(sc, w, i, w');
    SoundAgain(sc, w, i, b, w');
    TakeKept(sc, w, i, b, w');
  }

  // ---- A poll iteration ----

  function Members(js: seq<nat>): set<nat> {
    set k | 0 <= k < |js| :: js[k]
  }

  predicate Distinct(js: seq<nat>) {
    forall j, k :: 0 <= j < k < |js| ==> js[j] != js[k]
  }

  lemma MembersSplit(js: seq<nat>)
    requires Distinct(js) && js != []
    ensures var n := |js| - 1;
            && Members(js) == Members(js[..n]) + {js[n]} && js[n] !in Members(js[..n])
            && Distinct(js[..n]) && js[n] in Members(js)
  {
    var n := |js| - 1;
    assert forall k :: 0 <= k < n ==> js[..n][k] == js[k];
    assert forall x :: x in Members(js) ==> x in Members(js[..n]) + {js[n]} by {
      forall x | x in Members(js) ensures x in Members(js[..n]) + {js[n]} {
        var k :| 0 <= k < |js| && js[k] == x;
        if k < n { assert js[..n][k] == x; }
      }
    }
  }

  lemma StillWaiting(sc: Scenario, w: World, i: nat)
    requires sc.Valid() && Sound(sc, w) && i in w.inbox
    ensures w.calls == []
  {
  }

  lemma KeptChain(sc: Scenario, u: World, v: World, w: World)
    requires Kept(sc, u, v) && Kept(sc, v, w)
    ensures Kept(sc, u, w)
  {
  }

  lemma {:induction false} TakeAllSound(sc: Scenario, w: World, js: seq<nat>)
    requires sc.Valid() && Sound(sc, w) && w.st.queuesOpen && Distinct(js) && Members(js) <= w.inbox
    requires forall k :: 0 <= k < |js| ==> js[k] < |sc.from|
    ensures var w' := TakeAll(sc, w, js);
            Sound(sc, w') && w'.st.queuesOpen && w'.silent == w.silent && w'.inbox == w.inbox - Members(js) && Kept(sc, w, w')
    decreases |js|
  {
    if js != [] {
      var n := |js| - 1;
      MembersSplit(js);
      TakeAllSound(sc, w, js[..n]);
      var v := TakeAll(sc, w, js[..n]);
      StillWaiting(sc, v, js[n]);
      TakeSound(sc, v, js[n], Take(sc, v, js[n]));
      KeptChain(sc, w, v, Take(sc, v, js[n]));
    }
  }

  lemma PollSound(sc: Scenario, w: World, js: seq<nat>, w': World)
    requires sc.Valid() && Sound(sc, w) && CanPoll(sc, w, js) && w' == Poll(sc, w, js)
    ensures Sound(sc, w') && Kept(sc, w, w')
    ensures w'.inbox == w.inbox - Members(js) && w'.silent == w.silent
  {
    var v := w.(st := EnsureInbox(w.st));
    EnsureInboxSound(sc, w, v);
    TakeAllSound(sc, v, js);
    KeptChain(sc, w, v, w');
  }

  lemma AnswerSound(sc: Scenario, w: World, i: nat, w': World)
    requires sc.Valid() && Sound(sc, w) && i in w.silent && w' == Answer(w, i)
    ensures Sound(sc, w') && Kept(sc, w, w')
  {
    assert forall j :: Recorded(sc, w', j) <==> Recorded(sc, w, j);
    if w.calls == [] {
      forall j | 0 <= j < |sc.tasks| ensures SlotOk(sc, w', j, w'.st.batches[0].results[j]) {
        assert SlotOk(sc, w, j, w.st.batches[0].results[j]);
      }
    }
  }

  // ---- The crash ----

  lemma BestWasWritten(agg: seq<Snapshot>, seen: seq<Snapshot>)
    requires multiset(seen) == multiset(agg) && agg != []
    ensures Best(seen).Some? && Best(seen).value in agg
  {
    assert |seen| == |multiset(seen)| == |multiset(agg)| == |agg|;
    var i := BestIsFirstLargest(seen);
    assert seen[i] in multiset(seen);
  }

  lemma ReinvokedBatch(sc: Scenario, w: World, seen: seq<Snapshot>, st: State)
    requires sc.Valid() && Sound(sc, w) && CanCrash(w, seen) && st == Reinvoke(w.st, seen)
    ensures && st.restored && st.resolved == w.st.resolved && st.cached == w.st.resolved
            && st.agg == w.st.agg && st.sent == w.st.sent && st.id == w.st.id && st.known == w.st.known
            && st.runCounter == 0 && st.batchCounter == 1
            && st.batches == map[0 := RestoreBatch(SavedOf(sc)[0], w.st.resolved)]
  {
    LargestIsUnion(w.st, seen);
    BestWasWritten(w.st.agg, seen);
    assert Best(seen).value.batches == SavedOf(sc);
  }

  /** A cached result is found under the id of the child that replied itself, and nowhere else. */
  lemma ChildNotElsewhere(sc: Scenario, w: World, i: nat)
    requires sc.Valid() && ResolvedOk(sc, w)
    ensures Child(sc.id, i) in w.st.resolved <==> Recorded(sc, w, i) && sc.Direct(i)
    ensures Recorded(sc, w, i) && sc.Direct(i) ==> w.st.resolved[Child(sc.id, i)] == sc.res[i]
  {
    if Child(sc.id, i) in w.st.resolved {
      var j :| 0 <= j < |sc.from| && sc.from[j] == Child(sc.id, i);
    }
  }

  /** The slots a re-invocation rebuilds. */
  predicate Rebuilt(sc: Scenario, w: World, rs: seq<Option<Result>>)
    requires sc.Valid()
  {
    && |rs| == |sc.tasks|
    && forall i :: 0 <= i < |sc.tasks| ==> rs[i] == if Recorded(sc, w, i) && sc.Direct(i) then Some(sc.res[i]) else None
  }

  lemma RestoredResults(sc: Scenario, w: World, after: Batch)
    requires sc.Valid() && ResolvedOk(sc, w) && after == RestoreBatch(SavedOf(sc)[0], w.st.resolved)
    ensures Rebuilt(sc, w, after.results)
  {
    forall i | 0 <= i < |sc.tasks|
      ensures after.results[i] == if Recorded(sc, w, i) && sc.Direct(i) then Some(sc.res[i]) else None
    {
      ChildNotElsewhere(sc, w, i);
    }
  }

  lemma RebuiltStillWaits(sc: Scenario, w: World, before: Batch, after: Batch)
    requires sc.Valid() && BatchOk(sc, w, before) && Rebuilt(sc, w, after.results)
    ensures Missing(after.results) > 0
  {
    MissingZero(before.results);
    MissingZero(after.results);
    var i :| 0 <= i < |sc.tasks| && before.results[i].None?;
    assert SlotOk(sc, w, i, before.results[i]) && after.results[i].None?;
  }

  lemma RebuiltOk(sc: Scenario, w: World, before: Batch, after: Batch, w': World)
    requires sc.Valid() && BatchOk(sc, w, before) && Rebuilt(sc, w, after.results)
    requires after == Batch(Missing(after.results), after.results, sc.callback, sc.state, ChildIds(sc.id, 0, |sc.tasks|))
    requires w'.silent == w.silent && w'.inbox == w.inbox
    ensures BatchOk(sc, w', after)
  {
    RebuiltStillWaits(sc, w, before, after);
    assert forall i :: Recorded(sc, w', i) <==> Recorded(sc, w, i);
  }

  lemma CrashResolved(sc: Scenario, w: World, w': World)
    requires sc.Valid() && ResolvedOk(sc, w) && w'.st.resolved == w.st.resolved && w'.silent == w.silent && w'.inbox == w.inbox
    ensures ResolvedOk(sc, w')
  {
    assert forall i :: Recorded(sc, w', i) <==> Recorded(sc, w, i);
  }

  lemma CrashChain(s: State, seen: seq<Snapshot>, s': State)
    requires ChainOk(s) && s.agg != [] && multiset(seen) == multiset(s.agg) && s' == Reinvoke(s, seen)
    ensures ChainOk(s')
  {
    LargestIsUnion(s, seen);
  }

  lemma CrashBatch(sc: Scenario, w: World, before: Batch, w': World, after: Batch)
    requires sc.Valid() && ResolvedOk(sc, w) && BatchOk(sc, w, before)
    requires after == RestoreBatch(SavedOf(sc)[0], w.st.resolved) && w'.silent == w.silent && w'.inbox == w.inbox
    ensures BatchOk(sc, w', after) && Rebuilt(sc, w, after.results)
  {
    RestoredResults(sc, w, after);
    RebuiltOk(sc, w, before, after, w');
  }

  lemma CrashSound(sc: Scenario, w: World, seen: seq<Snapshot>, w': World)
    requires sc.Valid() && Sound(sc, w) && CanCrash(w, seen) && w' == CrashAndReturn(w, seen)
    ensures Sound(sc, w') && w'.st.restored && w'.st.cached == w.st.resolved
    ensures Rebuilt(sc, w, w'.st.batches[0].results)
  {
    ReinvokedBatch(sc, w, seen, w'.st);
    CrashChain(w.st, seen, w'.st);
    CrashResolved(sc, w, w');
    CrashBatch(sc, w, w.st.batches[0], w', w'.st.batches[0]);
  }

  /** A crash keeps everything if every reply recorded so far came from the child itself; the recorded reply
      of a child that chained is lost. */
  lemma CrashLosesChained(sc: Scenario, w: World, w': World)
    requires sc.Valid() && Sound(sc, w) && Crashes(w, w')
    ensures Whole(sc, w') <==> forall i :: Recorded(sc, w, i) ==> sc.Direct(i)
    ensures forall i :: Lost(sc, w', i) <==> Recorded(sc, w, i) && !sc.Direct(i)
  {
    var seen :| CanCrash(w, seen) && w' == CrashAndReturn(w, seen);
    CrashSound(sc, w, seen, w');
    assert forall i :: Recorded(sc, w', i) <==> Recorded(sc, w, i);
  }

  lemma LostIsChained(sc: Scenario, w: World, i: nat)
    requires sc.Valid() && Sound(sc, w) && Lost(sc, w, i)
    ensures !sc.Direct(i)
  {
    assert SlotOk(sc, w, i, w.st.batches[0].results[i]);
  }

  lemma SameBatchIff(sc: Scenario, w: World, before: Batch, after: Batch, w': World)
    requires sc.Valid() && BatchOk(sc, w, before) && BatchOk(sc, w', after) && Rebuilt(sc, w, after.results)
    ensures after == before <==> forall i :: 0 <= i < |sc.tasks| && before.results[i].Some? ==> sc.Direct(i)
  {
    forall i | 0 <= i < |sc.tasks| ensures after.results[i] == before.results[i] <==> before.results[i].None? || sc.Direct(i) {
      assert SlotOk(sc, w, i, before.results[i]);
    }
    if forall i :: 0 <= i < |sc.tasks| && before.results[i].Some? ==> sc.Direct(i) {
      assert after.results == before.results;
    }
  }

  /** In any world of any run, a crash gives back exactly the batch it interrupted if and only if every
      reply that fills a slot came from the child itself. */
  lemma CrashKeepsBatch(sc: Scenario, w: World, seen: seq<Snapshot>, w': World)
    requires sc.Valid() && Sound(sc, w) && CanCrash(w, seen) && w' == CrashAndReturn(w, seen)
    ensures w'.st.batches == w.st.batches <==>
              forall i :: 0 <= i < |sc.tasks| && w.st.batches[0].results[i].Some? ==> sc.Direct(i)
  {
    CrashSound(sc, w, seen, w');
    var before, after := w.st.batches[0], w'.st.batches[0];
    SameBatchIff(sc, w, before, after, w');
    OneBatch(w.st.batches, w'.st.batches);
  }

  lemma OneBatch(a: map<nat, Batch>, b: map<nat, Batch>)
    requires a.Keys == {0} == b.Keys
    ensures a == b <==> a[0] == b[0]
  {
    assert a == map[0 := a[0]] && b == map[0 := b[0]];
  }

  // ---- Whole runs ----

  lemma StepSound(sc: Scenario, w: World, w': World)
    requires sc.Valid() && Sound(sc, w) && Step(sc, w, w')
    ensures Sound(sc, w') && (Crashes(w, w') || Kept(sc, w, w'))
  {
    if i :| i in w.silent && w' == Answer(w, i) {
      AnswerSound(sc, w, i, w');
    } else if js :| CanPoll(sc, w, js) && w' == Poll(sc, w, js) {
      PollSound(sc, w, js, w');
    } else {
      var seen :| CanCrash(w, seen) && w' == CrashAndReturn(w, seen);
      CrashSound(sc, w, seen, w');
    }
  }

  lemma {:induction false} RunSound(sc: Scenario, ws: seq<World>, k: nat, w: World)
    requires sc.Valid() && IsRun(sc, ws) && k < |ws| && w == ws[k]
    ensures Sound(sc, w)
    decreases k
  {
    if k == 0 {
      BeginSound(sc, w);
    } else {
      RunSound(sc, ws, k - 1, ws[k - 1]);
      assert StepTo(sc, ws, k);
      StepSound(sc, ws[k - 1], w);
    }
  }

  lemma StepKept(sc: Scenario, w: World, w': World)
    requires sc.Valid() && Sound(sc, w) && Step(sc, w, w')
    ensures Crashes(w, w') || Kept(sc, w, w')
  {
    StepSound(sc, w, w');
  }

  /** The few things about the worlds of a run that the results below need. */
  lemma RunFacts(sc: Scenario, ws: seq<World>, k: nat, w: World)
    requires sc.Valid() && IsRun(sc, ws) && k < |ws| && w == ws[k]
    ensures w.calls == [] || (w.calls == [sc.res] && AllIn(w))
    ensures w.st.id == sc.id && w.st.sent == AllInvited(sc) && CountersOk(sc, w.st) && ResolvedOk(sc, w)
  {
    RunSound(sc, ws, k, w);
  }

  /** The parent is killed after it has recorded the reply of a child that chained. */
  ghost predicate CrashLoses(sc: Scenario, w: World, w': World)
    requires sc.Valid()
  {
    Crashes(w, w') && exists i :: Recorded(sc, w, i) && !sc.Direct(i)
  }

  ghost predicate LosesAt(sc: Scenario, ws: seq<World>, j: nat)
    requires sc.Valid()
  {
    0 < j < |ws| && CrashLoses(sc, ws[j - 1], ws[j])
  }

  ghost predicate Loses(sc: Scenario, ws: seq<World>)
    requires sc.Valid()
  {
    exists j :: LosesAt(sc, ws, j)
  }

  lemma StaysLost(sc: Scenario, w: World, w': World, i: nat)
    requires sc.Valid() && Sound(sc, w) && Step(sc, w, w') && Lost(sc, w, i)
    ensures Lost(sc, w', i)
  {
    StepKept(sc, w, w');
    if Crashes(w, w') {
      LostIsChained(sc, w, i);
      CrashLosesChained(sc, w, w');
    }
  }

  lemma StaysWhole(sc: Scenario, w: World, w': World)
    requires sc.Valid() && Sound(sc, w) && Step(sc, w, w') && !CrashLoses(sc, w, w') && Whole(sc, w)
    ensures Whole(sc, w')
  {
    StepKept(sc, w, w');
    if Crashes(w, w') { CrashLosesChained(sc, w, w'); }
  }

  lemma BecomesLost(sc: Scenario, w: World, w': World) returns (i: nat)
    requires sc.Valid() && Sound(sc, w) && CrashLoses(sc, w, w')
    ensures Lost(sc, w', i)
  {
    i :| Recorded(sc, w, i) && !sc.Direct(i);
    CrashLosesChained(sc, w, w');
  }

  lemma {:induction false} LostForGood(sc: Scenario, ws: seq<World>, j: nat, k: nat) returns (i: nat)
    requires sc.Valid() && IsRun(sc, ws) && LosesAt(sc, ws, j) && j <= k < |ws|
    ensures Lost(sc, ws[k], i)
    decreases k
  {
    if k == j {
      i := LostAt(sc, ws, j, ws[j - 1], ws[j]);
    } else {
      i := LostForGood(sc, ws, j, k - 1);
      LostAfter(sc, ws, k, ws[k - 1], ws[k], i);
    }
  }

  lemma LostAt(sc: Scenario, ws: seq<World>, j: nat, w: World, w': World) returns (i: nat)
    requires sc.Valid() && IsRun(sc, ws) && 0 < j < |ws| && w == ws[j - 1] && w' == ws[j] && CrashLoses(sc, w, w')
    ensures Lost(sc, w', i)
  {
    RunSound(sc, ws, j - 1, w);
    i := BecomesLost(sc, w, w');
  }

  lemma LostAfter(sc: Scenario, ws: seq<World>, k: nat, w: World, w': World, i: nat)
    requires sc.Valid() && IsRun(sc, ws) && 0 < k < |ws| && w == ws[k - 1] && w' == ws[k] && Lost(sc, w, i)
    ensures Lost(sc, w', i)
  {
    RunSound(sc, ws, k - 1, w);
    assert StepTo(sc, ws, k);
    StaysLost(sc, w, w', i);
  }

  lemma WholeAfter(sc: Scenario, ws: seq<World>, k: nat, w: World, w': World)
    requires sc.Valid() && IsRun(sc, ws) && 0 < k < |ws| && w == ws[k - 1] && w' == ws[k]
    requires !CrashLoses(sc, w, w') && Whole(sc, w)
    ensures Whole(sc, w')
  {
    RunSound(sc, ws, k - 1, w);
    assert StepTo(sc, ws, k);
    StaysWhole(sc, w, w');
  }

  lemma {:induction false} WholeUnlessLost(sc: Scenario, ws: seq<World>, k: nat)
    requires sc.Valid() && IsRun(sc, ws) && k < |ws| && forall j: nat :: j <= k ==> !LosesAt(sc, ws, j)
    ensures Whole(sc, ws[k])
    decreases k
  {
    if k == 0 {
      BeginSound(sc, ws[0]);
    } else {
      WholeUnlessLost(sc, ws, k - 1);
      assert !LosesAt(sc, ws, k);
      WholeAfter(sc, ws, k, ws[k - 1], ws[k]);
    }
  }

  lemma WholeAndInIsCalled(sc: Scenario, ws: seq<World>, k: nat, w: World)
    requires sc.Valid() && IsRun(sc, ws) && k < |ws| && w == ws[k] && Whole(sc, w) && AllIn(w)
    ensures w.calls == [sc.res]
  {
    RunSound(sc, ws, k, w);
    if w.calls == [] {
      assert forall i :: 0 <= i < |sc.tasks| ==> Recorded(sc, w, i);
      MissingZero(w.st.batches[0].results);
    }
  }

  /** However often the parent is killed between poll iterations, its callback is called at most once and
      then with every child's result in its own slot. It has been called if and only if every reply is in
      and no crash has come after the recorded reply of a child that chained. */
  lemma CallbackExactly(sc: Scenario, ws: seq<World>)
    requires sc.Valid() && IsRun(sc, ws)
    ensures var w := ws[|ws| - 1];
            && (w.calls == [] || w.calls == [sc.res])
            && (w.calls == [sc.res] <==> AllIn(w) && !Loses(sc, ws))
  {
    var k := |ws| - 1;
    RunFacts(sc, ws, k, ws[k]);
    if Loses(sc, ws) {
      var j :| LosesAt(sc, ws, j);
      var i := LostForGood(sc, ws, j, k);
    } else {
      WholeUnlessLost(sc, ws, k);
      if AllIn(ws[k]) { WholeAndInIsCalled(sc, ws, k, ws[k]); }
    }
  }

  /** For children that reply themselves crashes are invisible: once every reply is in, the callback has been
      called, once, with every child's result in its own slot. And whoever replies, every child is invited
      exactly once, in task order. */
  lemma CrashTransparency(sc: Scenario, ws: seq<World>)
    requires sc.Valid() && IsRun(sc, ws)
    ensures var w := ws[|ws| - 1];
            && (sc.AllDirect() ==> w.calls == if AllIn(w) then [sc.res] else [])
            && |w.st.sent| == |sc.tasks|
            && (forall i :: 0 <= i < |sc.tasks| ==>
                  w.st.sent[i] == Envelope(Child(sc.id, i), sc.tasks[i].fn, sc.tasks[i].payload, Some(Slot(sc.id, 0, i))))
  {
    CallbackExactly(sc, ws);
    RunFacts(sc, ws, |ws| - 1, ws[|ws| - 1]);
    EachInvitedOnce(sc);
  }

  lemma EachInvitedOnce(sc: Scenario)
    requires sc.Valid()
    ensures |AllInvited(sc)| == |sc.tasks|
    ensures forall i :: 0 <= i < |sc.tasks| ==>
              AllInvited(sc)[i] == Envelope(Child(sc.id, i), sc.tasks[i].fn, sc.tasks[i].payload, Some(Slot(sc.id, 0, i)))
  {
    var b := FirstBatch(sc);
    AllUnfilled(b.results, |sc.tasks|);
    AllInvitedInOrder(sc.known, sc.id, 0, b.childIds, sc.tasks, Unfilled(b.results, |sc.tasks|));
  }

  // ---- When crashes are invisible ----

  ghost predicate Complete(sc: Scenario, ws: seq<World>)
    requires |sc.from| == |sc.res|
  {
    IsRun(sc, ws) && AllIn(ws[|ws| - 1])
  }

  ghost predicate Transparent(sc: Scenario)
    requires |sc.from| == |sc.res|
  {
    forall ws: seq<World> :: Complete(sc, ws) ==> ws[|ws| - 1].calls == [sc.res]
  }

  /** With a single child nothing can be recorded while the parent waits. */
  lemma {:induction false} AloneNeverLoses(sc: Scenario, ws: seq<World>, j: nat)
    requires sc.Valid() && IsRun(sc, ws) && |sc.tasks| == 1
    ensures !LosesAt(sc, ws, j)
    decreases j
  {
    if LosesAt(sc, ws, j) {
      forall l: nat | l <= j - 1 ensures !LosesAt(sc, ws, l) { AloneNeverLoses(sc, ws, l); }
      WholeUnlessLost(sc, ws, j - 1);
      RunSound(sc, ws, j - 1, ws[j - 1]);
      AloneIsRecorded(sc, ws[j - 1]);
    }
  }

  lemma AloneIsRecorded(sc: Scenario, w: World)
    requires sc.Valid() && Sound(sc, w) && Whole(sc, w) && |sc.tasks| == 1 && w.calls == []
    ensures forall i :: !Recorded(sc, w, i)
  {
    MissingZero(w.st.batches[0].results);
  }

  lemma Extend(sc: Scenario, ws: seq<World>, w: World)
    requires |sc.from| == |sc.res| && IsRun(sc, ws) && Step(sc, ws[|ws| - 1], w)
    ensures IsRun(sc, ws + [w])
  {
    var longer := ws + [w];
    forall i | 0 < i < |longer| ensures StepTo(sc, longer, i) {
      if i < |ws| { assert StepTo(sc, ws, i); }
    }
  }

  lemma AnswerNext(sc: Scenario, ws: seq<World>, w: World, i: nat)
    requires |sc.from| == |sc.res| && IsRun(sc, ws) && w == ws[|ws| - 1] && i in w.silent
    ensures IsRun(sc, ws + [Answer(w, i)])
  {
    Extend(sc, ws, Answer(w, i));
  }

  lemma PollNext(sc: Scenario, ws: seq<World>, w: World, i: nat)
    requires sc.Valid() && IsRun(sc, ws) && w == ws[|ws| - 1] && i in w.inbox && i < |sc.from| && w.calls == []
    ensures CanPoll(sc, w, [i]) && IsRun(sc, ws + [Poll(sc, w, [i])])
  {
    assert CanPoll(sc, w, [i]);
    Extend(sc, ws, Poll(sc, w, [i]));
  }

  lemma CrashNext(sc: Scenario, ws: seq<World>, w: World)
    requires |sc.from| == |sc.res| && IsRun(sc, ws) && w == ws[|ws| - 1] && w.calls == []
    ensures Crashes(w, CrashAndReturn(w, w.st.agg)) && IsRun(sc, ws + [CrashAndReturn(w, w.st.agg)])
  {
    assert CanCrash(w, w.st.agg);
    Extend(sc, ws, CrashAndReturn(w, w.st.agg));
  }

  lemma PollOne(sc: Scenario, ws: seq<World>, k: nat, w: World, i: nat)
    requires sc.Valid() && IsRun(sc, ws) && k < |ws| && w == ws[k] && i in w.inbox && w.calls == []
    ensures i < |sc.from| && CanPoll(sc, w, [i])
    ensures Poll(sc, w, [i]).inbox == w.inbox - {i} && Poll(sc, w, [i]).silent == w.silent
  {
    RunSound(sc, ws, k, w);
    PollSound(sc, w, [i], Poll(sc, w, [i]));
    assert Members([i]) == {i} by { assert [i][0] == i; }
  }

  lemma LosesStill(sc: Scenario, ws: seq<World>, w: World)
    requires sc.Valid() && Loses(sc, ws)
    ensures Loses(sc, ws + [w])
  {
    var j :| LosesAt(sc, ws, j);
    assert LosesAt(sc, ws + [w], j);
  }

  function ToCome(w: World): nat {
    2 * |w.silent| + |w.inbox|
  }

  /** While a reply is missing, one more can be sent or taken. */
  lemma GoOn(sc: Scenario, ws: seq<World>, w: World) returns (w': World)
    requires sc.Valid() && IsRun(sc, ws) && w == ws[|ws| - 1] && w.calls == [] && !AllIn(w)
    ensures IsRun(sc, ws + [w']) && ToCome(w') < ToCome(w)
  {
    if i :| i in w.silent {
      w' := Answer(w, i);
      AnswerNext(sc, ws, w, i);
      assert |w'.silent| == |w.silent| - 1;
    } else {
      var i :| i in w.inbox;
      PollOne(sc, ws, |ws| - 1, w, i);
      w' := Poll(sc, w, [i]);
      PollNext(sc, ws, w, i);
      assert |w'.inbox| == |w.inbox| - 1;
    }
  }

  /** A run that has lost a reply can go on until everything is in. */
  lemma {:induction false} Finish(sc: Scenario, ws: seq<World>) returns (all: seq<World>)
    requires sc.Valid() && IsRun(sc, ws) && Loses(sc, ws)
    ensures Complete(sc, all) && Loses(sc, all)
    decreases ToCome(ws[|ws| - 1])
  {
    if AllIn(ws[|ws| - 1]) {
      all := ws;
    } else {
      CallbackExactly(sc, ws);
      var w' := GoOn(sc, ws, ws[|ws| - 1]);
      LosesStill(sc, ws, w');
      all := Finish(sc, ws + [w']);
    }
  }

  /** Beside another child, a child that chains can be lost: it replies, its reply is recorded, and the
      parent is killed. */
  lemma ChainedCanBeLost(sc: Scenario, i: nat) returns (ws: seq<World>)
    requires sc.Valid() && |sc.tasks| > 1 && i < |sc.tasks| && !sc.Direct(i)
    ensures IsRun(sc, ws) && Loses(sc, ws)
  {
    var w0 := Begin(sc);
    ws := [w0];
    var w1 := Answer(w0, i);
    AnswerNext(sc, ws, w0, i);
    ws := ws + [w1];
    PollOne(sc, ws, 1, w1, i);
    PollNext(sc, ws, w1, i);
    var w2 := Poll(sc, w1, [i]);
    ws := ws + [w2];
    StillOutstanding(sc, ws, w2, i);
    CrashNext(sc, ws, w2);
    ws := ws + [CrashAndReturn(w2, w2.st.agg)];
    assert CrashLoses(sc, ws[2], ws[3]);
    assert LosesAt(sc, ws, 3);
  }

  lemma StillOutstanding(sc: Scenario, ws: seq<World>, w: World, i: nat)
    requires sc.Valid() && IsRun(sc, ws) && w == ws[|ws| - 1] && |sc.tasks| > 1 && i < |sc.tasks|
    requires w.silent == Indices(|sc.tasks|) - {i} && i !in w.inbox
    ensures Recorded(sc, w, i) && w.calls == []
  {
    RunFacts(sc, ws, |ws| - 1, w);
    assert (if i == 0 then 1 else 0) in w.silent;
  }

  /** Crashes are invisible to the callback of a fan-out, whatever the interleaving, if and only if all its
      children reply themselves, or there is just one. */
  lemma TransparentExactly(sc: Scenario)
    requires sc.Valid()
    ensures Transparent(sc) <==> sc.AllDirect() || |sc.tasks| == 1
  {
    if sc.AllDirect() || |sc.tasks| == 1 {
      forall ws: seq<World> | Complete(sc, ws) ensures ws[|ws| - 1].calls == [sc.res] {
        CallbackExactly(sc, ws);
        if j :| LosesAt(sc, ws, j) && |sc.tasks| == 1 { AloneNeverLoses(sc, ws, j); }
      }
    } else {
      var i :| 0 <= i < |sc.from| && !sc.Direct(i);
      var ws := ChainedCanBeLost(sc, i);
      var all := Finish(sc, ws);
      CallbackExactly(sc, all);
    }
  }
}
