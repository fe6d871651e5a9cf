// What synchronous Bellman-Ford computes: exact bounded walk minima, shortest distances and a
// shortest simple path, or a witness of a negative cycle.
module ShortestPaths {
  import opened Wrappers
  import opened BellmanFord

  // ---- Walks ----

  predicate IsWalk(g: Graph, es: seq<Edge>, a: nat, b: nat) {
    if es == [] then a == b && a < g.vertices
    else
      var e := es[|es| - 1];
      e in g.edges && e.to == b && IsWalk(g, es[..|es| - 1], a, e.from)
  }

  function Weight(es: seq<Edge>): real {
    if es == [] then 0.0 else Weight(es[..|es| - 1]) + es[|es| - 1].weight
  }

  lemma {:induction false} WeightAppend(es: seq<Edge>, fs: seq<Edge>)
    ensures Weight(es + fs) == Weight(es) + Weight(fs)
    decreases |fs|
  {
    if fs == [] {
      assert es + fs == es;
    } else {
      WeightAppend(es, fs[..|fs| - 1]);
      assert (es + fs)[..|es + fs| - 1] == es + fs[..|fs| - 1];
    }
  }

  lemma {:induction false} WalkAppend(g: Graph, es: seq<Edge>, fs: seq<Edge>, a: nat, b: nat, c: nat)
    requires IsWalk(g, es, a, b) && IsWalk(g, fs, b, c)
    ensures IsWalk(g, es + fs, a, c)
    decreases |fs|
  {
    if fs == [] {
      assert es + fs == es;
    } else {
      WalkAppend(g, es, fs[..|fs| - 1], a, b, fs[|fs| - 1].from);
      assert (es + fs)[..|es + fs| - 1] == es + fs[..|fs| - 1];
    }
  }

  /** The `i`-th vertex of a walk from `a`. */
  function At(es: seq<Edge>, a: nat, i: nat): nat
    requires i <= |es|
  {
    if i == 0 then a else es[i - 1].to
  }

  lemma {:induction false} WalkSplit(g: Graph, es: seq<Edge>, a: nat, b: nat, i: nat)
    requires g.Valid() && IsWalk(g, es, a, b) && i <= |es|
    ensures At(es, a, i) < g.vertices
    ensures IsWalk(g, es[..i], a, At(es, a, i)) && IsWalk(g, es[i..], At(es, a, i), b)
    decreases |es|
  {
    var n := |es|;
    if i == n {
      assert es[..i] == es && es[i..] == [];
      if n > 0 { assert es[n - 1] in g.edges; }
    } else {
      WalkSplit(g, es[..n - 1], a, es[n - 1].from, i);
      assert es[..n - 1][..i] == es[..i];
      assert es[i..][..|es[i..]| - 1] == es[..n - 1][i..];
    }
  }

  // ---- Histories: the tables round by round, as relations ----

  /** What one round does to one vertex: its distance becomes the least of the old one and all candidates,
      and a change sets the predecessor to the source of an edge that attains the new distance. */
  ghost predicate VertexStep(g: Graph, t: Tables, t2: Tables, v: nat)
    requires g.Valid() && TablesOk(g, t) && TablesOk(g, t2) && v < g.vertices
  {
    && !Less(t.dist[v], t2.dist[v])
    && (forall e :: e in g.edges && e.to == v ==> !Less(Plus(t.dist[e.from], e.weight), t2.dist[v]))
    && (t2.dist[v] == t.dist[v] ==> t2.pred[v] == t.pred[v])
    && (t2.dist[v] != t.dist[v] ==>
          && Less(t2.dist[v], t.dist[v])
          && exists e :: e in g.edges && e.to == v && e.from == t2.pred[v] && Plus(t.dist[e.from], e.weight) == t2.dist[v])
  }

  ghost predicate TablesStep(g: Graph, t: Tables, t2: Tables)
    requires g.Valid()
  {
    TablesOk(g, t) && TablesOk(g, t2) && forall v :: 0 <= v < g.vertices ==> VertexStep(g, t, t2, v)
  }

  predicate IsInit(g: Graph, t: Tables)
    requires g.Valid()
  {
    && TablesOk(g, t)
    && forall v :: 0 <= v < g.vertices ==>
         t.pred[v] == -1 && t.dist[v] == if v == g.start then Some(0.0) else None
  }

  ghost predicate StepTo(g: Graph, ts: seq<Tables>, i: nat)
    requires g.Valid() && 0 < i < |ts| && TablesOk(g, ts[i - 1]) && TablesOk(g, ts[i])
  {
    TablesStep(g, ts[i - 1], ts[i])
  }

  ghost predicate IsHistory(g: Graph, ts: seq<Tables>) {
    && g.Valid() && ts != [] && IsInit(g, ts[0])
    && (forall i :: 0 <= i < |ts| ==> TablesOk(g, ts[i]))
    && forall i :: 0 < i < |ts| ==> StepTo(g, ts, i)
  }

  /** A round is such a step. */
  lemma RoundIsStep(g: Graph, t: Tables)
    requires g.Valid() && TablesOk(g, t)
    ensures TablesStep(g, t, Round(g, t))
  {
    forall v | 0 <= v < g.vertices ensures VertexStep(g, t, Round(g, t), v) {
      RelaxIsMinimum(InEdges(g.edges, v), t.dist, v);
      UpdatedAt(g, t, g.vertices, v);
    }
  }

  lemma NextIsStep(g: Graph, n: nat)
    requires g.Valid() && n > 0
    ensures TablesStep(g, Rounds(g, n - 1), Rounds(g, n))
  {
    RoundIsStep(g, Rounds(g, n - 1));
  }

  lemma HistoryGrows(g: Graph, n: nat, before: seq<Tables>, ts: seq<Tables>)
    requires g.Valid() && n > 0 && before == HistoryOf(g, n - 1) && ts == HistoryOf(g, n)
    requires forall i :: 0 < i < |before| ==> StepTo(g, before, i)
    ensures forall i :: 0 < i < |ts| ==> StepTo(g, ts, i)
  {
    NextIsStep(g, n);
    forall i | 0 < i < |ts| ensures StepTo(g, ts, i) {
      if i < n { assert StepTo(g, before, i); }
    }
  }

  lemma {:induction false} RoundsAreHistory(g: Graph, n: nat)
    requires g.Valid()
    ensures IsHistory(g, HistoryOf(g, n))
    decreases n
  {
    if n > 0 {
      RoundsAreHistory(g, n - 1);
      HistoryGrows(g, n, HistoryOf(g, n - 1), HistoryOf(g, n));
    }
  }

  // ---- Exactness: distances after k rounds are minima over walks of at most k edges ----

  ghost predicate AtMost(g: Graph, d: Dist, v: nat, k: nat) {
    forall es :: IsWalk(g, es, g.start, v) && |es| <= k ==> d.Some? && d.value <= Weight(es)
  }

  ghost predicate Attained(g: Graph, d: Dist, v: nat, k: nat) {
    d.Some? ==> exists es :: IsWalk(g, es, g.start, v) && |es| <= k && Weight(es) == d.value
  }

  /** `d` is the least weight of a walk from the start to `v` with at most `k` edges, Infinity if there is none. */
  ghost predicate Exact(g: Graph, d: Dist, v: nat, k: nat) {
    AtMost(g, d, v, k) && Attained(g, d, v, k)
  }

  lemma StepAtMost(g: Graph, t: Tables, t2: Tables, v: nat, k: nat)
    requires g.Valid() && TablesStep(g, t, t2) && v < g.vertices
    requires forall u :: 0 <= u < g.vertices ==> AtMost(g, t.dist[u], u, k)
    ensures AtMost(g, t2.dist[v], v, k + 1)
  {
    var d := t2.dist[v];
    assert VertexStep(g, t, t2, v);
    forall es: seq<Edge> | IsWalk(g, es, g.start, v) && |es| <= k + 1 ensures d.Some? && d.value <= Weight(es) {
      assert AtMost(g, t.dist[v], v, k);
      if |es| > k {
        var e := es[|es| - 1];
        assert e in g.edges && AtMost(g, t.dist[e.from], e.from, k);
        assert IsWalk(g, es[..|es| - 1], g.start, e.from);
      }
    }
  }

  lemma StepAttained(g: Graph, t: Tables, t2: Tables, v: nat, k: nat)
    requires g.Valid() && TablesStep(g, t, t2) && v < g.vertices
    requires forall u :: 0 <= u < g.vertices ==> Attained(g, t.dist[u], u, k)
    ensures Attained(g, t2.dist[v], v, k + 1)
  {
    var d := t2.dist[v];
    assert VertexStep(g, t, t2, v);
    assert Attained(g, t.dist[v], v, k);
    if d != t.dist[v] {
      var e :| e in g.edges && e.to == v && e.from == t2.pred[v] && Plus(t.dist[e.from], e.weight) == d;
      assert Attained(g, t.dist[e.from], e.from, k);
      var es :| IsWalk(g, es, g.start, e.from) && |es| <= k && Weight(es) == t.dist[e.from].value;
      assert (es + [e])[..|es|] == es;
      assert IsWalk(g, es + [e], g.start, v) && Weight(es + [e]) == d.value;
    }
  }

  lemma {:induction false} HistoryExact(g: Graph, ts: seq<Tables>, k: nat, v: nat)
    requires IsHistory(g, ts) && k < |ts| && v < g.vertices
    ensures Exact(g, ts[k].dist[v], v, k)
    decreases k
  {
    if k == 0 {
      var none: seq<Edge> := [];
      if v == g.start { assert IsWalk(g, none, g.start, v) && Weight(none) == 0.0; }
    } else {
      var t := ts[k - 1];
      forall u | 0 <= u < g.vertices ensures Exact(g, t.dist[u], u, k - 1) {
        HistoryExact(g, ts, k - 1, u);
      }
      assert StepTo(g, ts, k);
      StepAtMost(g, ts[k - 1], ts[k], v, k - 1);
      StepAttained(g, ts[k - 1], ts[k], v, k - 1);
    }
  }

  /** After `k` rounds every distance is exactly the least weight over walks of at most `k` edges. */
  lemma DistancesExact(g: Graph, k: nat, v: nat)
    requires g.Valid() && v < g.vertices
    ensures Exact(g, Rounds(g, k).dist[v], v, k)
  {
    RoundsAreHistory(g, k);
    HistoryExact(g, HistoryOf(g, k), k, v);
  }

  // ---- Negative cycles ----

  ghost predicate NegativeCycleAt(g: Graph, u: nat, walk: seq<Edge>, cycle: seq<Edge>) {
    IsWalk(g, walk, g.start, u) && IsWalk(g, cycle, u, u) && Weight(cycle) < 0.0
  }

  ghost predicate ReachableNegativeCycle(g: Graph) {
    exists u, walk, cycle :: NegativeCycleAt(g, u, walk, cycle)
  }

  /** A round would change nothing. */
  ghost predicate Still(g: Graph, t: Tables)
    requires g.Valid()
  {
    TablesStep(g, t, t)
  }

  lemma {:induction false} StillBoundsWalks(g: Graph, t: Tables, es: seq<Edge>, a: nat, b: nat)
    requires g.Valid() && Still(g, t)
    requires IsWalk(g, es, a, b) && a < g.vertices && t.dist[a].Some?
    ensures b < g.vertices && t.dist[b].Some? && t.dist[b].value <= t.dist[a].value + Weight(es)
    decreases |es|
  {
    if es != [] {
      var e := es[|es| - 1];
      StillBoundsWalks(g, t, es[..|es| - 1], a, e.from);
      assert e in g.edges && VertexStep(g, t, t, b);
    }
  }

  lemma StartFinite(g: Graph, ts: seq<Tables>, k: nat)
    requires IsHistory(g, ts) && k < |ts|
    ensures ts[k].dist[g.start].Some? && ts[k].dist[g.start].value <= 0.0
  {
    HistoryExact(g, ts, k, g.start);
    var none: seq<Edge> := [];
    assert IsWalk(g, none, g.start, g.start) && |none| <= k && Weight(none) == 0.0;
  }

  lemma StillHasNoNegativeCycle(g: Graph, ts: seq<Tables>, k: nat)
    requires IsHistory(g, ts) && k < |ts| && Still(g, ts[k])
    ensures !ReachableNegativeCycle(g)
  {
    forall u, walk, cycle ensures !NegativeCycleAt(g, u, walk, cycle) {
      if IsWalk(g, walk, g.start, u) && IsWalk(g, cycle, u, u) {
        StartFinite(g, ts, k);
        StillBoundsWalks(g, ts[k], walk, g.start, u);
        StillBoundsWalks(g, ts[k], cycle, u, u);
      }
    }
  }

  lemma {:induction false} Pigeonhole(s: seq<int>, n: nat) returns (i: nat, j: nat)
    requires |s| == n + 1 && forall k :: 0 <= k < |s| ==> 0 <= s[k] < n
    ensures i < j < |s| && s[i] == s[j]
  {
    if Distinct(s) {
      DistinctBounded(s, n);
    }
    i, j :| 0 <= i < j < |s| && s[i] == s[j];
  }

  function Visited(es: seq<Edge>, a: nat): (s: seq<int>)
    ensures |s| == |es| + 1 && forall i :: 0 <= i <= |es| ==> s[i] == At(es, a, i)
  {
    seq(|es| + 1, i requires 0 <= i <= |es| => At(es, a, i))
  }

  /** A walk with as many edges as there are vertices runs through a cycle, which can be cut out. */
  lemma CutCycle(g: Graph, es: seq<Edge>, b: nat) returns (u: nat, head: seq<Edge>, cycle: seq<Edge>, tail: seq<Edge>)
    requires g.Valid() && IsWalk(g, es, g.start, b) && |es| == g.vertices
    ensures es == head + cycle + tail && cycle != []
    ensures IsWalk(g, head, g.start, u) && IsWalk(g, cycle, u, u) && IsWalk(g, head + tail, g.start, b)
    ensures Weight(es) == Weight(head + tail) + Weight(cycle)
  {
    forall i | 0 <= i <= |es| ensures At(es, g.start, i) < g.vertices {
      WalkSplit(g, es, g.start, b, i);
    }
    var i, j := Pigeonhole(Visited(es, g.start), g.vertices);
    u := At(es, g.start, i);
    assert u == At(es, g.start, j);
    head, cycle, tail := es[..i], es[i..j], es[j..];
    WalkSplit(g, es, g.start, b, j);
    WalkSplit(g, es[..j], g.start, u, i);
    assert es[..j][..i] == head && es[..j][i..] == cycle;
    WalkAppend(g, head, tail, g.start, u, b);
    assert es == head + cycle + tail;
    WeightAppend(head + cycle, tail);
    WeightAppend(head, cycle);
    WeightAppend(head, tail);
  }

  lemma SameDistances(g: Graph, t: Tables, t2: Tables)
    requires g.Valid() && TablesStep(g, t, t2) && forall v :: 0 <= v < g.vertices ==> t2.dist[v] == t.dist[v]
    ensures t2 == t
  {
    forall v | 0 <= v < g.vertices ensures t2.pred[v] == t.pred[v] {
      assert VertexStep(g, t, t2, v);
    }
    assert t2.dist == t.dist && t2.pred == t.pred;
  }

  lemma ChangedVertex(g: Graph, t: Tables, t2: Tables) returns (v: nat)
    requires g.Valid() && TablesStep(g, t, t2) && t != t2
    ensures v < g.vertices && Less(t2.dist[v], t.dist[v])
  {
    if forall v :: 0 <= v < g.vertices ==> t2.dist[v] == t.dist[v] {
      SameDistances(g, t, t2);
    }
    v :| 0 <= v < g.vertices && t2.dist[v] != t.dist[v];
    assert VertexStep(g, t, t2, v);
  }

  lemma LateChange(g: Graph, ts: seq<Tables>)
    requires IsHistory(g, ts) && |ts| == g.vertices + 1 && ts[g.vertices - 1] != ts[g.vertices]
    ensures ReachableNegativeCycle(g)
  {
    var k := g.vertices - 1;
    assert StepTo(g, ts, k + 1);
    var v := ChangedVertex(g, ts[k], ts[k + 1]);
    HistoryExact(g, ts, k, v);
    HistoryExact(g, ts, k + 1, v);
    var d := ts[k + 1].dist[v];
    var es :| IsWalk(g, es, g.start, v) && |es| <= k + 1 && Weight(es) == d.value;
    assert |es| == g.vertices;
    var u, head, cycle, tail := CutCycle(g, es, v);
    assert |head + tail| <= k;
    assert NegativeCycleAt(g, u, head, cycle);
  }

  /** A change in round `vertices` exposes a reachable negative cycle. */
  lemma LateChangeIsNegativeCycle(g: Graph)
    requires g.Valid() && !Unchanged(g, g.vertices - 1)
    ensures ReachableNegativeCycle(g)
  {
    RoundsAreHistory(g, g.vertices);
    LateChange(g, HistoryOf(g, g.vertices));
  }

  // ---- Where the loop stops ----

  /** The loop has ended with a change-free round; otherwise it was cut off. */
  predicate Settled(g: Graph)
    requires g.Valid()
  {
    var flags := Flags(Quiet(g), g.vertices);
    var stop := StopFrom(flags, 0);
    stop > 0 && flags[stop - 1]
  }

  lemma {:induction false} StopsAtFirstFlag(flags: seq<bool>, k: nat)
    requires k <= |flags| && forall j :: 0 <= j < k ==> !flags[j]
    ensures var stop := StopFrom(flags, k);
            && (forall j :: 0 <= j < stop - 1 ==> !flags[j])
            && (stop < |flags| ==> stop > 0 && flags[stop - 1])
    decreases |flags| - k
  {
    if k < |flags| && !flags[k] {
      StopsAtFirstFlag(flags, k + 1);
    }
  }

  /** The loop ends right after its first change-free round, or after `vertices` changing rounds. */
  lemma StopsAtFirstUnchanged(g: Graph)
    requires g.Valid()
    ensures forall j :: 0 <= j < Stop(g) - 1 ==> !Unchanged(g, j)
    ensures Stop(g) < g.vertices ==> Stop(g) > 0 && Unchanged(g, Stop(g) - 1)
  {
    var flags, stop := Flags(Quiet(g), g.vertices), Stop(g);
    StopsAtFirstFlag(flags, 0);
    forall j | 0 <= j < stop - 1 ensures !Unchanged(g, j) {
      FlagAt(Quiet(g), g.vertices, j);
    }
    if stop < g.vertices { FlagAt(Quiet(g), g.vertices, stop - 1); }
  }

  /** The `k`-th flag tells whether round `k + 1` changes nothing. */
  lemma FlagIsUnchanged(g: Graph, flags: seq<bool>, k: nat)
    requires g.Valid() && flags == Flags(Quiet(g), g.vertices) && k < g.vertices
    ensures flags[k] <==> Unchanged(g, k)
  {
    FlagAt(Quiet(g), g.vertices, k);
  }

  lemma SettledUnchanged(g: Graph, flags: seq<bool>, stop: nat)
    requires g.Valid() && flags == Flags(Quiet(g), g.vertices)
    requires 0 < stop <= g.vertices && flags[stop - 1]
    ensures Unchanged(g, stop - 1)
  {
    FlagIsUnchanged(g, flags, stop - 1);
  }

  lemma UnchangedIsStill(g: Graph, k: nat)
    requires g.Valid() && Unchanged(g, k)
    ensures Still(g, Rounds(g, k + 1))
  {
    RoundIsStep(g, Rounds(g, k));
  }

  lemma SettledIsStill(g: Graph)
    requires g.Valid() && Settled(g)
    ensures Still(g, Final(g))
  {
    var stop := Stop(g);
    SettledUnchanged(g, Flags(Quiet(g), g.vertices), stop);
    UnchangedIsStill(g, stop - 1);
  }

  lemma SettledHasNoNegativeCycle(g: Graph)
    requires g.Valid() && Settled(g)
    ensures !ReachableNegativeCycle(g)
  {
    SettledIsStill(g);
    RoundsAreHistory(g, Stop(g));
    StillHasNoNegativeCycle(g, HistoryOf(g, Stop(g)), Stop(g));
  }

  lemma {:induction false} NoFlagAtStop(flags: seq<bool>, k: nat)
    requires flags != [] && k <= |flags| && (k > 0 ==> !flags[k - 1])
    requires StopFrom(flags, k) > 0 ==> !flags[StopFrom(flags, k) - 1]
    ensures !flags[|flags| - 1]
    decreases |flags| - k
  {
    if k < |flags| { NoFlagAtStop(flags, k + 1); }
  }

  /** The loop ends with a change-free round within `vertices` rounds exactly when no negative cycle is reachable. */
  lemma SettledIffNoNegativeCycle(g: Graph)
    requires g.Valid()
    ensures Settled(g) <==> !ReachableNegativeCycle(g)
  {
    if Settled(g) {
      SettledHasNoNegativeCycle(g);
    } else {
      NoFlagAtStop(Flags(Quiet(g), g.vertices), 0);
      FlagAt(Quiet(g), g.vertices, g.vertices - 1);
      LateChangeIsNegativeCycle(g);
    }
  }

  /** `d` is the true distance of `v`: the least weight over all walks. */
  ghost predicate Shortest(g: Graph, d: Dist, v: nat) {
    && (d.None? <==> forall es :: !IsWalk(g, es, g.start, v))
    && (d.Some? ==>
          && (exists es :: IsWalk(g, es, g.start, v) && Weight(es) == d.value)
          && (forall es :: IsWalk(g, es, g.start, v) ==> d.value <= Weight(es)))
  }

  lemma StillIsShortest(g: Graph, ts: seq<Tables>, k: nat, v: nat)
    requires IsHistory(g, ts) && k < |ts| && Still(g, ts[k]) && v < g.vertices
    ensures Shortest(g, ts[k].dist[v], v)
  {
    var d := ts[k].dist[v];
    HistoryExact(g, ts, k, v);
    StartFinite(g, ts, k);
    forall es: seq<Edge> | IsWalk(g, es, g.start, v) ensures d.Some? && d.value <= Weight(es) {
      StillBoundsWalks(g, ts[k], es, g.start, v);
    }
  }

  /** Without a reachable negative cycle the final distances are the shortest ones. */
  lemma FinalDistancesShortest(g: Graph, v: nat)
    requires g.Valid() && !ReachableNegativeCycle(g) && v < g.vertices
    ensures Shortest(g, Final(g).dist[v], v)
  {
    var stop := Stop(g);
    SettledIffNoNegativeCycle(g);
    SettledIsStill(g);
    RoundsAreHistory(g, stop);
    StillIsShortest(g, HistoryOf(g, stop), stop, v);
  }

  // ---- Predecessors ----

  /** The last round up to `k` that updated `v`. */
  function LastUpdate(ts: seq<Tables>, k: nat, v: nat): (r: nat)
    requires k < |ts| && forall i :: 0 <= i < |ts| ==> v < |ts[i].dist|
    ensures r <= k
  {
    if k == 0 then 0
    else if ts[k].dist[v] != ts[k - 1].dist[v] then k
    else LastUpdate(ts, k - 1, v)
  }

  /** The edge to the predecessor is tight and the predecessor was updated earlier, or the edge can still improve. */
  predicate EdgeBack(t: Tables, e: Edge, earlier: bool)
    requires e.from < |t.dist| && e.to < |t.dist|
  {
    && t.dist[e.from].Some? && t.dist[e.to].Some?
    && ((earlier && t.dist[e.from].value + e.weight == t.dist[e.to].value)
        || t.dist[e.from].value + e.weight < t.dist[e.to].value)
  }

  ghost predicate PredecessorOk(g: Graph, ts: seq<Tables>, k: nat, v: nat)
    requires IsHistory(g, ts) && k < |ts| && v < g.vertices
  {
    var t := ts[k];
    var last := LastUpdate(ts, k, v);
    && (last == 0 <==> t.pred[v] == -1)
    && (last == 0 ==> t.dist[v] == if v == g.start then Some(0.0) else None)
    && (last > 0 ==> t.dist[v].Some? && (v == g.start ==> t.dist[v].value < 0.0))
    && (t.pred[v] != -1 ==>
          exists e :: e in g.edges && e.from == t.pred[v] && e.to == v
                      && EdgeBack(t, e, LastUpdate(ts, k, e.from) < last))
  }

  lemma EdgeBackStep(g: Graph, ts: seq<Tables>, k: nat, e: Edge)
    requires IsHistory(g, ts) && k + 1 < |ts| && e in g.edges
    requires var t, t2 := ts[k], ts[k + 1];
             if t2.dist[e.to] != t.dist[e.to] then Plus(t.dist[e.from], e.weight) == t2.dist[e.to]
             else EdgeBack(t, e, LastUpdate(ts, k, e.from) < LastUpdate(ts, k, e.to))
    requires ts[k + 1].dist[e.to].Some?
    ensures EdgeBack(ts[k + 1], e, LastUpdate(ts, k + 1, e.from) < LastUpdate(ts, k + 1, e.to))
  {
    assert StepTo(g, ts, k + 1);
    assert VertexStep(g, ts[k], ts[k + 1], e.from) && VertexStep(g, ts[k], ts[k + 1], e.to);
  }

  lemma {:induction false} PredecessorsOk(g: Graph, ts: seq<Tables>, k: nat, v: nat)
    requires IsHistory(g, ts) && k < |ts| && v < g.vertices
    ensures PredecessorOk(g, ts, k, v)
    decreases k
  {
    if k > 0 {
      var t, t2 := ts[k - 1], ts[k];
      PredecessorsOk(g, ts, k - 1, v);
      assert StepTo(g, ts, k);
      assert VertexStep(g, t, t2, v);
      StartFinite(g, ts, k - 1);
      if t2.dist[v] != t.dist[v] {
        var e :| e in g.edges && e.to == v && e.from == t2.pred[v] && Plus(t.dist[e.from], e.weight) == t2.dist[v];
        EdgeBackStep(g, ts, k - 1, e);
      } else if t.pred[v] != -1 {
        var e :| e in g.edges && e.from == t.pred[v] && e.to == v
                 && EdgeBack(t, e, LastUpdate(ts, k - 1, e.from) < LastUpdate(ts, k - 1, v));
        EdgeBackStep(g, ts, k - 1, e);
      }
    }
  }

  /** Once nothing changes, every predecessor edge is tight and leads to a vertex last updated strictly earlier. */
  lemma StillPredecessor(g: Graph, ts: seq<Tables>, k: nat, v: nat) returns (e: Edge)
    requires IsHistory(g, ts) && k < |ts| && Still(g, ts[k])
    requires v < g.vertices && ts[k].dist[v].Some? && v != g.start
    ensures e in g.edges && e.to == v && ts[k].pred[v] == e.from
    ensures ts[k].dist[e.from].Some? && ts[k].dist[e.from].value + e.weight == ts[k].dist[v].value
    ensures LastUpdate(ts, k, e.from) < LastUpdate(ts, k, v)
  {
    PredecessorsOk(g, ts, k, v);
    e :| e in g.edges && e.from == ts[k].pred[v] && e.to == v
         && EdgeBack(ts[k], e, LastUpdate(ts, k, e.from) < LastUpdate(ts, k, v));
    assert VertexStep(g, ts[k], ts[k], v);
  }

  /** The vertices on `path` were all last updated strictly later than `v`. */
  predicate AllLater(ts: seq<Tables>, k: nat, v: nat, path: seq<int>)
    requires k < |ts| && forall i :: 0 <= i < |ts| ==> |ts[i].dist| == |ts[0].dist|
    requires v < |ts[0].dist|
  {
    forall i :: 0 <= i < |path| ==>
      0 <= path[i] < |ts[0].dist| && LastUpdate(ts, k, v) < LastUpdate(ts, k, path[i])
  }

  /** Going back from `v` to a vertex last updated earlier never comes to `path` again. */
  lemma LaterStill(ts: seq<Tables>, k: nat, u: nat, v: nat, path: seq<int>)
    requires k < |ts| && forall i :: 0 <= i < |ts| ==> |ts[i].dist| == |ts[0].dist|
    requires u < |ts[0].dist| && v < |ts[0].dist| && AllLater(ts, k, v, path)
    requires LastUpdate(ts, k, u) < LastUpdate(ts, k, v)
    ensures AllLater(ts, k, u, [v] + path) && u !in [v] + path
  {
    var longer := [v] + path;
    forall i | 0 <= i < |longer|
      ensures 0 <= longer[i] < |ts[0].dist| && LastUpdate(ts, k, u) < LastUpdate(ts, k, longer[i])
    {
      if i > 0 { assert longer[i] == path[i - 1]; }
    }
  }

  /** One edge appended to a walk. */
  lemma WalkGrows(g: Graph, before: seq<Edge>, e: Edge, es: seq<Edge>, a: nat)
    requires e in g.edges && IsWalk(g, before, a, e.from) && es == before + [e]
    ensures IsWalk(g, es, a, e.to) && Weight(es) == Weight(before) + e.weight
    ensures Visited(es, a) == Visited(before, a) + [e.to]
  {
    assert es[..|es| - 1] == before;
  }

  lemma TraceStep(pred: seq<int>, start: nat, v: nat, path: seq<int>, u: nat)
    requires CanTrace(pred, start, v, path) && v < |pred| && v != start && pred[v] == u && u !in [v] + path
    ensures CanTrace(pred, start, u, [v] + path)
    ensures Trace(pred, start, v, path) == Trace(pred, start, u, [v] + path)
  {
  }

  /** Following predecessors from a reachable vertex spells out a shortest walk from the start, backwards. */
  lemma {:induction false} TraceIsShortestWalk(g: Graph, ts: seq<Tables>, k: nat, v: nat, path: seq<int>) returns (es: seq<Edge>)
    requires IsHistory(g, ts) && k < |ts| && Still(g, ts[k])
    requires v < g.vertices && ts[k].dist[v].Some?
    requires CanTrace(ts[k].pred, g.start, v, path) && AllLater(ts, k, v, path)
    ensures IsWalk(g, es, g.start, v) && Weight(es) == ts[k].dist[v].value
    ensures Trace(ts[k].pred, g.start, v, path) == Visited(es, g.start) + path
    decreases LastUpdate(ts, k, v)
  {
    if v == g.start {
      es := [];
      StillStart(g, ts, k);
    } else {
      var e := StillPredecessor(g, ts, k, v);
      LaterStill(ts, k, e.from, v, path);
      TraceStep(ts[k].pred, g.start, v, path, e.from);
      var before := TraceIsShortestWalk(g, ts, k, e.from, [v] + path);
      es := before + [e];
      WalkGrows(g, before, e, es, g.start);
      assert Visited(before, g.start) + ([v] + path) == Visited(es, g.start) + path;
    }
  }

  lemma StillStart(g: Graph, ts: seq<Tables>, k: nat)
    requires IsHistory(g, ts) && k < |ts| && Still(g, ts[k])
    ensures ts[k].dist[g.start] == Some(0.0)
  {
    StillHasNoNegativeCycle(g, ts, k);
    StartFinite(g, ts, k);
    HistoryExact(g, ts, k, g.start);
    var d := ts[k].dist[g.start];
    var es :| IsWalk(g, es, g.start, g.start) && |es| <= k && Weight(es) == d.value;
    assert IsWalk(g, [], g.start, g.start);
    assert !NegativeCycleAt(g, g.start, [], es);
  }

  lemma StillPath(g: Graph, ts: seq<Tables>, k: nat)
    requires IsHistory(g, ts) && k < |ts| && Still(g, ts[k])
    ensures CanTrace(ts[k].pred, g.start, g.goal, [])
    ensures var path := Trace(ts[k].pred, g.start, g.goal, []);
            && (ts[k].dist[g.goal].None? ==> path == [])
            && (ts[k].dist[g.goal].Some? ==>
                  exists es :: IsWalk(g, es, g.start, g.goal) && path == Visited(es, g.start)
                               && Some(Weight(es)) == ts[k].dist[g.goal])
  {
    if ts[k].dist[g.goal].Some? {
      var es := TraceIsShortestWalk(g, ts, k, g.goal, []);
      assert Visited(es, g.start) + [] == Visited(es, g.start);
    } else {
      PredecessorsOk(g, ts, k, g.goal);
      StartFinite(g, ts, k);
    }
  }

  /** The path the algorithm returns without a reachable negative cycle: empty exactly when the goal is
      unreachable, otherwise a simple path along edges from the start to the goal of least weight, which is
      the goal's final distance. */
  lemma PathIsShortest(g: Graph)
    requires g.Valid() && !ReachableNegativeCycle(g)
    ensures var path := Trace(Final(g).pred, g.start, g.goal, []);
            && (path == [] <==> forall es :: !IsWalk(g, es, g.start, g.goal))
            && (path != [] ==>
                  && Distinct(path)
                  && exists es :: IsWalk(g, es, g.start, g.goal) && path == Visited(es, g.start)
                                  && Some(Weight(es)) == Final(g).dist[g.goal])
    ensures Shortest(g, Final(g).dist[g.goal], g.goal)
  {
    var stop := Stop(g);
    RoundsAreHistory(g, stop);
    SettledIffNoNegativeCycle(g);
    SettledIsStill(g);
    FinalDistancesShortest(g, g.goal);
    StillPath(g, HistoryOf(g, stop), stop);
  }
}
