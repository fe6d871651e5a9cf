// What a second fan-out of the same invocation meets after a crash, and which of its batches a
// re-invocation resumes.
module SecondRound {
  import opened Wrappers
  import opened Programs
  import opened Contexts
  import opened FnContext
  import opened Recovery
  import opened Transparency

  ghost predicate LastCrash(ws: seq<World>, j: nat) {
    0 < j < |ws| && Crashes(ws[j - 1], ws[j]) && forall k :: j < k < |ws| ==> !Crashes(ws[k - 1], ws[k])
  }

  ghost predicate NeverCrashed(ws: seq<World>) {
    forall k :: 0 < k < |ws| ==> !Crashes(ws[k - 1], ws[k])
  }

  lemma CrashCaches(sc: Scenario, ws: seq<World>, j: nat, w: World, w': World)
    requires sc.Valid() && IsRun(sc, ws) && 0 < j < |ws| && w == ws[j - 1] && w' == ws[j] && Crashes(w, w')
    ensures w'.st.restored && w'.st.cached == w.st.resolved
  {
    RunSound(sc, ws, j - 1, w);
    var seen :| CanCrash(w, seen) && w' == CrashAndReturn(w, seen);
    CrashSound(sc, w, seen, w');
  }

  lemma CacheKept(sc: Scenario, ws: seq<World>, k: nat, w: World, w': World)
    requires sc.Valid() && IsRun(sc, ws) && 0 < k < |ws| && w == ws[k - 1] && w' == ws[k] && !Crashes(w, w')
    ensures w'.st.restored == w.st.restored && w'.st.cached == w.st.cached
  {
    RunSound(sc, ws, k - 1, w);
    assert StepTo(sc, ws, k);
    StepKept(sc, w, w');
  }

  lemma {:induction false} CacheSince(sc: Scenario, ws: seq<World>, j: nat, k: nat)
    requires sc.Valid() && IsRun(sc, ws) && LastCrash(ws, j) && j <= k < |ws|
    ensures ws[k].st.restored && ws[k].st.cached == ws[j - 1].st.resolved
    decreases k
  {
    if k == j {
      CrashCaches(sc, ws, j, ws[j - 1], ws[j]);
    } else {
      CacheSince(sc, ws, j, k - 1);
      CacheKept(sc, ws, k, ws[k - 1], ws[k]);
    }
  }

  lemma {:induction false} NeverRestored(sc: Scenario, ws: seq<World>, k: nat)
    requires sc.Valid() && IsRun(sc, ws) && NeverCrashed(ws) && k < |ws|
    ensures !ws[k].st.restored
    decreases k
  {
    if k == 0 {
      BeginState(sc, FirstBatch(sc));
    } else {
      NeverRestored(sc, ws, k - 1);
      CacheKept(sc, ws, k, ws[k - 1], ws[k]);
    }
  }

  /** The batch a further `runAll` of `m` tasks opens in `w`. */
  function NextBatch(w: World, m: nat, callback: Name, state: Value): Batch {
    OpenBatch(w.st.id, w.st.runCounter, m, callback, state, w.st.cached)
  }

  lemma CachedSlots(sc: Scenario, w: World, m: nat)
    requires sc.Valid() && ResolvedOk(sc, w)
    ensures var rs := Lookup(w.st.resolved, ChildIds(sc.id, 0, m));
            forall i :: 0 <= i < m ==> rs[i] == if Recorded(sc, w, i) && sc.Direct(i) then Some(sc.res[i]) else None
  {
    forall i: nat ensures Child(sc.id, i) in w.st.resolved <==> Recorded(sc, w, i) && sc.Direct(i)
                  ensures Recorded(sc, w, i) && sc.Direct(i) ==> w.st.resolved[Child(sc.id, i)] == sc.res[i] {
      ChildNotElsewhere(sc, w, i);
    }
  }

  /** A fan-out issued any time after a crash restarts the child numbering: its slot `i` is filled at once
      with the first fan-out's result of child `i` exactly when the child itself had replied and that was
      recorded before the last crash, however many polls lie between. */
  lemma SecondRoundReusesFirst(sc: Scenario, ws: seq<World>, j: nat, m: nat, callback: Name, state: Value)
    requires sc.Valid() && IsRun(sc, ws) && LastCrash(ws, j)
    ensures var b := NextBatch(ws[|ws| - 1], m, callback, state);
            && b.childIds == ChildIds(sc.id, 0, m)
            && forall i :: 0 <= i < m ==>
                 b.results[i] == if Recorded(sc, ws[j - 1], i) && sc.Direct(i) then Some(sc.res[i]) else None
  {
    CacheSince(sc, ws, j, |ws| - 1);
    RunFacts(sc, ws, j - 1, ws[j - 1]);
    RunFacts(sc, ws, |ws| - 1, ws[|ws| - 1]);
    CachedSlots(sc, ws[j - 1], m);
  }

  /** A fan-out issued any time after a crash calls its callback at once exactly when it has tasks and the
      first fan-out's child `i` had replied itself before that crash for every slot `i`; the callback then gets the
      first fan-out's results, each in its slot, and nothing is invited or written. */
  lemma SecondRoundCalledAtOnce(sc: Scenario, ws: seq<World>, j: nat, tasks: seq<Task>, callback: Name, state: Value,
                                w: World, st: State, started: Started)
    requires sc.Valid() && IsRun(sc, ws) && LastCrash(ws, j) && w == ws[j - 1]
    requires st == ws[|ws| - 1].st && started == StartedBy(st, tasks, callback, state)
    ensures started.CallNow? <==> tasks != [] && forall i: nat :: i < |tasks| ==> Recorded(sc, w, i) && sc.Direct(i)
    ensures started.CallNow? ==> |tasks| <= |sc.res| && started.results == sc.res[..|tasks|]
    ensures started.CallNow? ==> var after := RunAllState(st, tasks, callback, state);
              after.sent == st.sent && after.agg == st.agg && after.batches == st.batches
  {
    SinceLastCrash(sc, ws, j, w, st);
    CalledFromCache(sc, w, st, tasks, callback, state, started);
  }

  lemma SinceLastCrash(sc: Scenario, ws: seq<World>, j: nat, w: World, st: State)
    requires sc.Valid() && IsRun(sc, ws) && LastCrash(ws, j) && w == ws[j - 1] && st == ws[|ws| - 1].st
    ensures ResolvedOk(sc, w) && st.id == sc.id && st.runCounter == 0 && st.cached == w.st.resolved
  {
    CacheSince(sc, ws, j, |ws| - 1);
    RunFacts(sc, ws, j - 1, w);
    RunFacts(sc, ws, |ws| - 1, ws[|ws| - 1]);
  }

  lemma CalledFromCache(sc: Scenario, w: World, st: State, tasks: seq<Task>, callback: Name, state: Value, started: Started)
    requires sc.Valid() && ResolvedOk(sc, w) && st.id == sc.id && st.runCounter == 0 && st.cached == w.st.resolved
    requires started == StartedBy(st, tasks, callback, state)
    ensures started.CallNow? <==> tasks != [] && forall i: nat :: i < |tasks| ==> Recorded(sc, w, i) && sc.Direct(i)
    ensures started.CallNow? ==> |tasks| <= |sc.res| && started.results == sc.res[..|tasks|]
    ensures started.CallNow? ==> var after := RunAllState(st, tasks, callback, state);
              after.sent == st.sent && after.agg == st.agg && after.batches == st.batches
  {
    CalledAtOnce(st, tasks, callback, state, started);
    CachedByCrash(sc, w, st, |tasks|);
    if started.CallNow? { ResultsFromCache(sc, st, started.results, |tasks|); }
  }

  lemma ResultsFromCache(sc: Scenario, st: State, rs: seq<Result>, n: nat)
    requires n == |rs| <= |sc.res|
    requires forall i: nat :: i < n ==> NextCached(st, i) && rs[i] == st.cached[Child(st.id, st.runCounter + i)]
    requires forall i: nat :: NextCached(st, i) ==> i < |sc.res| && st.cached[Child(st.id, st.runCounter + i)] == sc.res[i]
    ensures rs == sc.res[..n]
  {
    forall i: nat | i < n ensures rs[i] == sc.res[i] {
      assert NextCached(st, i);
    }
  }

  lemma CachedByCrash(sc: Scenario, w: World, st: State, n: nat)
    requires sc.Valid() && ResolvedOk(sc, w) && st.id == sc.id && st.runCounter == 0 && st.cached == w.st.resolved
    ensures AllCached(st, n) <==> forall i: nat :: i < n ==> Recorded(sc, w, i) && sc.Direct(i)
    ensures forall i: nat :: NextCached(st, i) ==> i < |sc.res| && st.cached[Child(st.id, st.runCounter + i)] == sc.res[i]
    ensures AllCached(st, n) ==> n <= |sc.res|
  {
    forall i: nat
      ensures NextCached(st, i) <==> Recorded(sc, w, i) && sc.Direct(i)
      ensures NextCached(st, i) ==> st.cached[Child(st.id, st.runCounter + i)] == sc.res[i]
    {
      ChildNotElsewhere(sc, w, i);
    }
    if n > |sc.res| { assert !NextCached(st, |sc.res|); }
  }

  /** Without a crash a further fan-out numbers its children on, and none of them has a result yet. */
  lemma SecondRoundFresh(sc: Scenario, ws: seq<World>, m: nat, callback: Name, state: Value)
    requires sc.Valid() && IsRun(sc, ws) && NeverCrashed(ws)
    ensures var b := NextBatch(ws[|ws| - 1], m, callback, state);
            && b.childIds == ChildIds(sc.id, |sc.tasks|, m)
            && forall i :: 0 <= i < m ==> b.results[i] == None
  {
    RunFacts(sc, ws, |ws| - 1, ws[|ws| - 1]);
    NeverRestored(sc, ws, |ws| - 1);
  }

  lemma SecondFanOut(sc: Scenario, st: State, tasks: seq<Task>, callback: Name, state: Value, s: State)
    requires sc.Valid() && CountersOk(sc, st) && !st.restored && st.batches == map[] && tasks != []
    requires s == RunAllState(st, tasks, callback, state)
    ensures |s.agg| == |st.agg| + 1 && s.agg[..|st.agg|] == st.agg
    ensures s.agg[|st.agg|].batches.Keys == {1} && s.agg[|st.agg|].results == st.resolved && s.batches.Keys == {1}
  {
    var b := OpenBatch(st.id, st.runCounter, |tasks|, callback, state, st.cached);
    MissingAll(b.results);
    assert st.batches[1 := b] == map[1 := b];
  }

  lemma SubmapSmaller(a: map<Id, Result>, b: map<Id, Result>)
    requires Extends(a, b)
    ensures |a| <= |b|
  {
    assert a.Keys <= b.Keys;
    assert |b.Keys - a.Keys| == |b.Keys| - |a.Keys|;
  }

  lemma OrderedSizes(agg: seq<Snapshot>, i: nat)
    requires Ordered(agg) && i < |agg|
    ensures |agg[i].results| <= |agg[|agg| - 1].results|
  {
    assert Extends(agg[i].results, agg[|agg| - 1].results);
    SubmapSmaller(agg[i].results, agg[|agg| - 1].results);
  }

  lemma OldestWins(agg: seq<Snapshot>, newest: Snapshot)
    requires agg != [] && |newest.results| == |agg[|agg| - 1].results|
    ensures Best(agg + [newest]).Some? && Best(agg + [newest]).value in agg
  {
    var all := agg + [newest];
    var i := BestIsFirstLargest(all);
    assert all[|agg| - 1] == agg[|agg| - 1];
    assert i < |agg| && all[i] == agg[i];
  }

  lemma NewestWins(agg: seq<Snapshot>, newest: Snapshot)
    requires forall i :: 0 <= i < |agg| ==> |agg[i].results| <= |newest.results|
    ensures Best([newest] + agg) == Some(newest)
  {
    var all := [newest] + agg;
    var i := BestIsFirstLargest(all);
    forall l | 0 < l < |all| ensures |all[l].results| <= |all[0].results| {
      assert all[l] == agg[l - 1];
    }
  }

  /** The snapshots written so far hold no more results than the last, which holds them all. */
  predicate LastIsLargest(st: State) {
    && st.agg != [] && st.agg[|st.agg| - 1].results == st.resolved
    && forall i :: 0 <= i < |st.agg| ==> |st.agg[i].results| <= |st.resolved|
  }

  lemma ChainSizes(st: State)
    requires ChainOk(st) && (st.queuesOpen || st.restored)
    ensures LastIsLargest(st)
  {
    forall i | 0 <= i < |st.agg| ensures |st.agg[i].results| <= |st.resolved| { OrderedSizes(st.agg, i); }
  }

  lemma FirstIsDone(sc: Scenario, ws: seq<World>, st: State)
    requires sc.Valid() && IsRun(sc, ws) && ws[|ws| - 1].calls != [] && st == ws[|ws| - 1].st
    ensures CountersOk(sc, st) && st.batches == map[] && LastIsLargest(st)
    ensures forall written :: written in st.agg ==> written.batches.Keys == {0}
  {
    RunSound(sc, ws, |ws| - 1, ws[|ws| - 1]);
    ChainSizes(st);
  }

  lemma ResumesStale(s: State, st: State, newest: Snapshot)
    requires s.agg == st.agg + [newest] && LastIsLargest(st) && newest.results == st.resolved
    requires forall written :: written in st.agg ==> written.batches.Keys == {0}
    ensures Reinvoke(s, s.agg).batches.Keys == {0}
  {
    OldestWins(st.agg, newest);
  }

  lemma ResumesNewest(s: State, st: State, newest: Snapshot, seen: seq<Snapshot>)
    requires s.agg == st.agg + [newest] && LastIsLargest(st) && newest.results == st.resolved
    requires newest.batches.Keys == {1} && seen == [newest] + st.agg
    ensures multiset(seen) == multiset(s.agg) && Reinvoke(s, seen).batches.Keys == {1}
  {
    NewestWins(st.agg, newest);
  }

  lemma TieAfterSecond(sc: Scenario, st: State, tasks: seq<Task>, callback: Name, state: Value, s: State)
    requires sc.Valid() && CountersOk(sc, st) && !st.restored && st.batches == map[] && tasks != []
    requires LastIsLargest(st) && forall written :: written in st.agg ==> written.batches.Keys == {0}
    requires s == RunAllState(st, tasks, callback, state)
    ensures s.agg != [] && s.batches.Keys == {1} && Reinvoke(s, s.agg).batches.Keys == {0}
    ensures var newestFirst := [s.agg[|s.agg| - 1]] + s.agg[..|s.agg| - 1];
            multiset(newestFirst) == multiset(s.agg) && Reinvoke(s, newestFirst).batches.Keys == {1}
  {
    SecondFanOut(sc, st, tasks, callback, state, s);
    var newest := s.agg[|st.agg|];
    assert s.agg == st.agg + [newest];
    ResumesStale(s, st, newest);
    ResumesNewest(s, st, newest, [newest] + st.agg);
  }

  /** The last snapshot of the first fan-out and the first of the second hold the same results. After the
      first fan-out is complete and the second has been issued, a re-invocation that receives the snapshots
      in the order they were written resumes the batch already completed; one that receives the newest
      first resumes the batch that is waiting. */
  lemma TieDependsOnOrder(sc: Scenario, ws: seq<World>, tasks: seq<Task>, callback: Name, state: Value, s: State)
    requires sc.Valid() && IsRun(sc, ws) && NeverCrashed(ws) && ws[|ws| - 1].calls != [] && tasks != []
    requires s == RunAllState(ws[|ws| - 1].st, tasks, callback, state)
    ensures s.agg != [] && s.batches.Keys == {1}
    ensures Reinvoke(s, s.agg).batches.Keys == {0}
    ensures var newestFirst := [s.agg[|s.agg| - 1]] + s.agg[..|s.agg| - 1];
            multiset(newestFirst) == multiset(s.agg) && Reinvoke(s, newestFirst).batches.Keys == {1}
  {
    NeverRestored(sc, ws, |ws| - 1);
    FirstIsDone(sc, ws, ws[|ws| - 1].st);
    TieAfterSecond(sc, ws[|ws| - 1].st, tasks, callback, state, s);
  }
}
