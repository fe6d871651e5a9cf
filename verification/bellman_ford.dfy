// Synchronous Bellman-Ford: every round relaxes all edges into each target against the frozen
// distances of the round before. Weights are exact (real) numbers.
module BellmanFord {
  import opened Wrappers

  /** `None` stands for Infinity. */
  type Dist = Option<real>

  datatype Edge = Edge(from: nat, to: nat, weight: real)

  datatype Update = Update(from: nat, to: nat, distance: real)

  function Plus(d: Dist, w: real): Dist {
    if d.Some? then Some(d.value + w) else None
  }

  predicate Less(a: Dist, b: Dist) {
    a.Some? && (b.None? || a.value < b.value)
  }

  datatype Graph = Graph(start: nat, goal: nat, edges: seq<Edge>, vertices: nat) {
    predicate Valid() {
      && start < vertices && goal < vertices
      && forall e :: e in edges ==> e.from < vertices && e.to < vertices
    }
  }

  // ---- compute-node.ts ----

  /** The distance after looking at `es` in order, and the last improvement seen. */
  function Relax(es: seq<Edge>, dist: seq<Dist>, to: nat): (Dist, Option<Update>)
    requires to < |dist| && forall e :: e in es ==> e.from < |dist|
  {
    if es == [] then (dist[to], None)
    else
      var (best, update) := Relax(es[..|es| - 1], dist, to);
      var e := es[|es| - 1];
      var d := Plus(dist[e.from], e.weight);
      if Less(d, best) then (d, Some(Update(e.from, e.to, d.value))) else (best, update)
  }

  method ComputeNode(to: nat, es: seq<Edge>, distances: seq<Dist>) returns (result: Option<Update>)
    requires to < |distances| && forall e :: e in es ==> e.from < |distances|
    ensures result == Relax(es, distances, to).1
  {
    result := None;
    var distance := distances[to];
    for i := 0 to |es|
      invariant (distance, result) == Relax(es[..i], distances, to)
    {
      var e := es[i];
      assert es[..i + 1][..i] == es[..i];
      if Less(Plus(distances[e.from], e.weight), distance) {
        distance := Plus(distances[e.from], e.weight);
        result := Some(Update(e.from, e.to, distance.value));
      }
    }
    assert es[..|es|] == es;
  }

  /** The distance is the least of the old one and all candidates; an update names an edge that attains it. */
  lemma {:induction false} RelaxIsMinimum(es: seq<Edge>, dist: seq<Dist>, to: nat)
    requires to < |dist| && forall e :: e in es ==> e.from < |dist| && e.to == to
    ensures var (d, u) := Relax(es, dist, to);
            && !Less(dist[to], d)
            && (forall e :: e in es ==> !Less(Plus(dist[e.from], e.weight), d))
            && (u.None? ==> d == dist[to])
            && (u.Some? ==>
                  && Less(d, dist[to]) && d == Some(u.value.distance) && u.value.to == to
                  && exists e :: e in es && e.from == u.value.from && Plus(dist[e.from], e.weight) == d)
    decreases |es|
  {
    if es != [] {
      var n := |es| - 1;
      RelaxIsMinimum(es[..n], dist, to);
      assert es == es[..n] + [es[n]];
      var e := es[n];
      var (d, u) := Relax(es, dist, to);
      var (before, _) := Relax(es[..n], dist, to);
      if Less(Plus(dist[e.from], e.weight), before) {
        assert e in es && Plus(dist[e.from], e.weight) == d;
      }
    }
  }

  // ---- algorithm.ts: grouping ----

  function InEdges(es: seq<Edge>, to: nat): (r: seq<Edge>)
    ensures forall e :: e in r <==> e in es && e.to == to
  {
    if es == [] then []
    else InEdges(es[..|es| - 1], to) + (if es[|es| - 1].to == to then [es[|es| - 1]] else [])
  }

  /** Targets in order of first appearance. */
  function Targets(es: seq<Edge>): (r: seq<nat>)
    ensures forall v :: v in r <==> exists e :: e in es && e.to == v
    ensures forall i, j :: 0 <= i < j < |r| ==> r[i] != r[j]
  {
    if es == [] then []
    else
      var before := Targets(es[..|es| - 1]);
      var e := es[|es| - 1];
      assert es == es[..|es| - 1] + [e];
      if e.to in before then before else before + [e.to]
  }

  /** Target `k` appears at some edge before which there are only edges to the targets before it. */
  lemma {:induction false} TargetsInOrder(es: seq<Edge>, k: nat) returns (i: nat)
    requires k < |Targets(es)|
    ensures i < |es| && es[i].to == Targets(es)[k]
    ensures forall j :: 0 <= j < i ==> es[j].to in Targets(es)[..k]
    decreases |es|
  {
    var n := |es| - 1;
    var before := Targets(es[..n]);
    assert forall j :: 0 <= j < n ==> es[..n][j] == es[j];
    if k < |before| {
      i := TargetsInOrder(es[..n], k);
      assert Targets(es)[..k] == before[..k];
    } else {
      i := n;
      assert Targets(es)[..k] == before;
    }
  }

  /** Every target once, in order of first appearance, with all its edges in their order. */
  ghost predicate Grouped(es: seq<Edge>, order: seq<nat>, groups: map<nat, seq<Edge>>) {
    && order == Targets(es)
    && (forall v :: v in groups <==> v in order)
    && AllInEdges(es, groups)
  }

  lemma TargetsLast(es: seq<Edge>, e: Edge)
    ensures Targets(es + [e]) == if e.to in Targets(es) then Targets(es) else Targets(es) + [e.to]
  {
    assert (es + [e])[..|es|] == es;
  }

  lemma InEdgesLast(es: seq<Edge>, e: Edge, to: nat)
    ensures InEdges(es + [e], to) == InEdges(es, to) + if e.to == to then [e] else []
  {
    assert (es + [e])[..|es|] == es;
  }

  lemma FirstInEdge(es: seq<Edge>, to: nat)
    requires to !in Targets(es)
    ensures InEdges(es, to) == []
  {
    NoInEdges(es, to);
  }

  ghost predicate AllInEdges(es: seq<Edge>, groups: map<nat, seq<Edge>>) {
    forall v :: v in groups ==> groups[v] == InEdges(es, v)
  }

  lemma GroupsLast(es: seq<Edge>, e: Edge, groups: map<nat, seq<Edge>>, groups': map<nat, seq<Edge>>)
    requires AllInEdges(es, groups) && (e.to !in groups ==> InEdges(es, e.to) == [])
    requires groups' == groups[e.to := (if e.to in groups then groups[e.to] else []) + [e]]
    ensures AllInEdges(es + [e], groups')
  {
    forall v | v in groups' ensures groups'[v] == InEdges(es + [e], v) {
      InEdgesLast(es, e, v);
    }
  }

  lemma GroupLast(es: seq<Edge>, e: Edge, order: seq<nat>, groups: map<nat, seq<Edge>>, groups': map<nat, seq<Edge>>)
    requires Grouped(es, order, groups)
    requires groups' == groups[e.to := (if e.to in groups then groups[e.to] else []) + [e]]
    ensures Grouped(es + [e], if e.to in groups then order else order + [e.to], groups')
  {
    TargetsLast(es, e);
    if e.to !in groups { FirstInEdge(es, e.to); }
    GroupsLast(es, e, groups, groups');
  }

  method AddEdge(ghost es: seq<Edge>, e: Edge, order: seq<nat>, groups: map<nat, seq<Edge>>)
      returns (order': seq<nat>, groups': map<nat, seq<Edge>>)
    requires Grouped(es, order, groups)
    ensures Grouped(es + [e], order', groups')
  {
    order', groups' := order, groups;
    if e.to !in groups' {
      order' := order' + [e.to];
      groups' := groups'[e.to := []];
    }
    groups' := groups'[e.to := groups'[e.to] + [e]];
    GroupLast(es, e, order, groups, groups');
  }

  method GroupEdgesByTargetNode(es: seq<Edge>) returns (order: seq<nat>, groups: map<nat, seq<Edge>>)
    ensures Grouped(es, order, groups)
  {
    order, groups := [], map[];
    ghost var done: seq<Edge> := [];
    for i := 0 to |es|
      invariant done == es[..i] && Grouped(done, order, groups)
    {
      order, groups := AddEdge(done, es[i], order, groups);
      done := done + [es[i]];
    }
    assert done == es;
  }

  lemma NoInEdges(es: seq<Edge>, to: nat)
    requires forall e :: e in es ==> e.to != to
    ensures InEdges(es, to) == []
  {
    if InEdges(es, to) != [] {
      assert InEdges(es, to)[0] in InEdges(es, to);
    }
  }

  // ---- algorithm.ts: rounds ----

  datatype Tables = Tables(dist: seq<Dist>, pred: seq<int>)

  predicate TablesOk(g: Graph, t: Tables) {
    && |t.dist| == |t.pred| == g.vertices
    && forall v :: 0 <= v < g.vertices ==> -1 <= t.pred[v] < g.vertices
  }

  function Init(g: Graph): (t: Tables)
    requires g.Valid()
    ensures TablesOk(g, t)
  {
    Tables(seq(g.vertices, v => if v == g.start then Some(0.0) else None), seq(g.vertices, _ => -1))
  }

  function Found(g: Graph, t: Tables, v: nat): Option<Update>
    requires g.Valid() && TablesOk(g, t) && v < g.vertices
  {
    Relax(InEdges(g.edges, v), t.dist, v).1
  }

  lemma {:induction false} FoundInRange(es: seq<Edge>, dist: seq<Dist>, to: nat)
    requires to < |dist| && forall e :: e in es ==> e.from < |dist| && e.to == to
    ensures Relax(es, dist, to).1.Some? ==> Relax(es, dist, to).1.value.from < |dist|
  {
    RelaxIsMinimum(es, dist, to);
  }

  ghost predicate Attains(e: Edge, dist: seq<Dist>, u: Update)
    requires e.from < |dist|
  {
    e.from == u.from && e.to == u.to && Plus(dist[e.from], e.weight) == Some(u.distance)
  }

  /** Edge `i` of the whole list attains the update's distance, and all earlier edges to `v` are worse. */
  ghost predicate FirstBest(es: seq<Edge>, dist: seq<Dist>, v: nat, u: Update, i: nat)
    requires forall e :: e in es ==> e.from < |dist|
  {
    && i < |es| && es[i].to == v && Attains(es[i], dist, u)
    && forall j :: 0 <= j < i && es[j].to == v ==> Less(Some(u.distance), Plus(dist[es[j].from], es[j].weight))
  }

  /** Of several edges of the graph that attain the minimum, an update names the first. */
  lemma {:induction false} UpdateNamesFirst(es: seq<Edge>, dist: seq<Dist>, v: nat) returns (i: nat)
    requires v < |dist| && forall e :: e in es ==> e.from < |dist|
    ensures var u := Relax(InEdges(es, v), dist, v).1; u.Some? ==> FirstBest(es, dist, v, u.value, i)
    decreases |es|
  {
    i := 0;
    if es != [] {
      var n := |es| - 1;
      var ins := InEdges(es[..n], v);
      i := UpdateNamesFirst(es[..n], dist, v);
      InEdgesLast(es[..n], es[n], v);
      assert es == es[..n] + [es[n]];
      RelaxLast(ins, es[n], dist, v);
      assert ins + [] == ins;
      var best, update := Relax(ins, dist, v).0, Relax(ins, dist, v).1;
      if es[n].to == v && Less(Plus(dist[es[n].from], es[n].weight), best) {
        RelaxIsMinimum(ins, dist, v);
        LastIsBest(es[..n], es[n], dist, v, ins, best);
        i := n;
      } else if update.Some? {
        StillFirst(es[..n], es[n], dist, v, update.value, i);
      }
    }
  }

  lemma LastIsBest(es: seq<Edge>, e: Edge, dist: seq<Dist>, v: nat, ins: seq<Edge>, best: Dist)
    requires e.from < |dist| && (forall x :: x in es ==> x.from < |dist|) && ins == InEdges(es, v)
    requires forall x :: x in ins ==> !Less(Plus(dist[x.from], x.weight), best)
    requires e.to == v && Less(Plus(dist[e.from], e.weight), best)
    ensures FirstBest(es + [e], dist, v, Update(e.from, e.to, Plus(dist[e.from], e.weight).value), |es|)
  {
    forall j | 0 <= j < |es| && es[j].to == v ensures Less(Plus(dist[e.from], e.weight), Plus(dist[es[j].from], es[j].weight)) {
      assert es[j] in ins;
    }
  }

  lemma StillFirst(es: seq<Edge>, e: Edge, dist: seq<Dist>, v: nat, u: Update, i: nat)
    requires e.from < |dist| && (forall x :: x in es ==> x.from < |dist|) && FirstBest(es, dist, v, u, i)
    ensures FirstBest(es + [e], dist, v, u, i)
  {
  }

  lemma RelaxLast(es: seq<Edge>, e: Edge, dist: seq<Dist>, to: nat)
    requires to < |dist| && e.from < |dist| && forall x :: x in es ==> x.from < |dist|
    ensures var (best, update) := Relax(es, dist, to);
            var d := Plus(dist[e.from], e.weight);
            Relax(es + [e], dist, to) == if Less(d, best) then (d, Some(Update(e.from, e.to, d.value))) else (best, update)
  {
    assert (es + [e])[..|es|] == es;
  }

  /** The tables of the first `n` vertices after a round; all updates are found in `t`. */
  function Updated(g: Graph, t: Tables, n: nat): (t': Tables)
    requires g.Valid() && TablesOk(g, t) && n <= g.vertices
    ensures |t'.dist| == |t'.pred| == n && forall v :: 0 <= v < n ==> -1 <= t'.pred[v] < g.vertices
  {
    if n == 0 then Tables([], [])
    else
      var before, v := Updated(g, t, n - 1), n - 1;
      FoundInRange(InEdges(g.edges, v), t.dist, v);
      match Found(g, t, v)
      case None => Tables(before.dist + [t.dist[v]], before.pred + [t.pred[v]])
      case Some(u) => Tables(before.dist + [Some(u.distance)], before.pred + [u.from])
  }

  /** All updates of a round apply together. */
  function Round(g: Graph, t: Tables): (t': Tables)
    requires g.Valid() && TablesOk(g, t)
    ensures TablesOk(g, t')
  {
    Updated(g, t, g.vertices)
  }

  predicate Applied(g: Graph, t: Tables, d: Dist, p: int, v: nat)
    requires g.Valid() && TablesOk(g, t) && v < g.vertices
  {
    match Found(g, t, v)
    case None => d == t.dist[v] && p == t.pred[v]
    case Some(u) => d == Some(u.distance) && p == u.from
  }

  lemma {:induction false} UpdatedAt(g: Graph, t: Tables, n: nat, v: nat)
    requires g.Valid() && TablesOk(g, t) && v < n <= g.vertices
    ensures Applied(g, t, Updated(g, t, n).dist[v], Updated(g, t, n).pred[v], v)
    decreases n
  {
    if v < n - 1 { UpdatedAt(g, t, n - 1, v); }
  }

  function Rounds(g: Graph, k: nat): (t: Tables)
    requires g.Valid()
    ensures TablesOk(g, t)
  {
    if k == 0 then Init(g) else Round(g, Rounds(g, k - 1))
  }

  /** Round `k + 1` changes nothing. */
  predicate Unchanged(g: Graph, k: nat)
    requires g.Valid()
  {
    Rounds(g, k + 1) == Rounds(g, k)
  }

  function Quiet(g: Graph): nat -> bool
    requires g.Valid()
  {
    (k: nat) => Unchanged(g, k)
  }

  /** For each of the first `n` rounds whether it changes nothing. */
  function Flags(quiet: nat -> bool, n: nat): (flags: seq<bool>)
    ensures |flags| == n
  {
    if n == 0 then [] else Flags(quiet, n - 1) + [quiet(n - 1)]
  }

  lemma {:induction false} FlagAt(quiet: nat -> bool, n: nat, k: nat)
    requires k < n
    ensures Flags(quiet, n)[k] == quiet(k)
    decreases n
  {
    if k < n - 1 { FlagAt(quiet, n - 1, k); }
  }

  /** Where a loop that has already gone `k` times round stops: after the first raised flag, or at the end. */
  function StopFrom(flags: seq<bool>, k: nat): (stop: nat)
    requires k <= |flags|
    ensures k <= stop <= |flags|
    decreases |flags| - k
  {
    if k == |flags| then k
    else if flags[k] then k + 1
    else StopFrom(flags, k + 1)
  }

  /** The number of rounds the main loop executes. */
  function Stop(g: Graph): (stop: nat)
    requires g.Valid()
    ensures stop <= g.vertices
  {
    StopFrom(Flags(Quiet(g), g.vertices), 0)
  }

  /** The tables the main loop ends with. */
  function Final(g: Graph): (t: Tables)
    requires g.Valid()
    ensures TablesOk(g, t)
  {
    Rounds(g, Stop(g))
  }

  // ---- algorithm.ts: path reconstruction ----

  predicate Distinct(s: seq<int>) {
    forall i, j :: 0 <= i < j < |s| ==> s[i] != s[j]
  }

  lemma {:induction false} DistinctBounded(s: seq<int>, n: nat)
    requires Distinct(s) && forall i :: 0 <= i < |s| ==> 0 <= s[i] < n
    ensures |s| <= n
  {
    var all := Below(n);
    var mine := set x | x in s;
    DistinctCard(s);
    assert mine <= all;
    CardMonotone(mine, all);
  }

  function Below(n: nat): (s: set<int>)
    ensures |s| == n && forall x :: x in s <==> 0 <= x < n
  {
    if n == 0 then {} else Below(n - 1) + {n - 1}
  }

  lemma {:induction false} DistinctCard(s: seq<int>)
    requires Distinct(s)
    ensures |set x | x in s| == |s|
  {
    if s != [] {
      var n := |s| - 1;
      DistinctCard(s[..n]);
      assert s == s[..n] + [s[n]];
      assert (set x | x in s) == (set x | x in s[..n]) + {s[n]};
      assert s[n] !in s[..n];
    }
  }

  lemma CardMonotone(a: set<int>, b: set<int>)
    requires a <= b
    ensures |a| <= |b|
  {
    assert |b - a| == |b| - |a|;
  }

  predicate CanTrace(pred: seq<int>, start: nat, current: int, path: seq<int>) {
    && (forall v :: 0 <= v < |pred| ==> -1 <= pred[v] < |pred|)
    && -1 <= current < |pred| && start < |pred|
    && Distinct(path) && current !in path && start !in path
    && forall i :: 0 <= i < |path| ==> 0 <= path[i] < |pred|
  }

  /** Following predecessors back from `current`, with `path` already collected. */
  function Trace(pred: seq<int>, start: nat, current: int, path: seq<int>): (r: seq<int>)
    requires CanTrace(pred, start, current, path)
    ensures Distinct(r)
    decreases |pred| - |path|, current
  {
    if current == -1 then []
    else if current == start then [current] + path
    else
      var longer := [current] + path;
      assert |longer| <= |pred| by { DistinctBounded(longer, |pred|); }
      if pred[current] in longer then [] else Trace(pred, start, pred[current], longer)
  }

  method PathReconstruction(start: nat, goal: nat, predecessors: array<int>) returns (path: seq<int>)
    requires start < predecessors.Length && goal < predecessors.Length
    requires forall v :: 0 <= v < predecessors.Length ==> -1 <= predecessors[v] < predecessors.Length
    ensures path == Trace(predecessors[..], start, goal, [])
  {
    if start == goal {
      return [start];
    }
    path := [];
    var current: int := goal;
    while current != -1 && current != start
      invariant CanTrace(predecessors[..], start, current, path)
      invariant Trace(predecessors[..], start, goal, []) == Trace(predecessors[..], start, current, path)
      decreases predecessors.Length - |path|
    {
      path := [current] + path;
      DistinctBounded(path, predecessors.Length);
      current := predecessors[current];
      if current in path {
        return [];
      }
    }
    if current == -1 {
      return [];
    }
    path := [start] + path;
  }

  predicate InRange(pred: seq<int>) {
    forall v :: 0 <= v < |pred| ==> -1 <= pred[v] < |pred|
  }

  /** The `k`-th predecessor of `v`, or -1 once there is none. */
  function Ancestor(pred: seq<int>, v: int, k: nat): (a: int)
    requires InRange(pred) && -1 <= v < |pred|
    ensures -1 <= a < |pred|
  {
    if k == 0 then v
    else
      var a := Ancestor(pred, v, k - 1);
      if a == -1 then -1 else pred[a]
  }

  lemma {:induction false} AncestorShift(pred: seq<int>, v: int, k: nat)
    requires InRange(pred) && 0 <= v < |pred|
    ensures Ancestor(pred, v, k + 1) == Ancestor(pred, pred[v], k)
    decreases k
  {
    if k > 0 {
      AncestorShift(pred, v, k - 1);
    } else {
      assert Ancestor(pred, v, 0) == v;
    }
  }

  lemma {:induction false} AncestorsStay(pred: seq<int>, among: seq<int>, v: int, k: nat)
    requires InRange(pred) && v in among && forall x :: x in among ==> 0 <= x < |pred| && pred[x] in among
    ensures Ancestor(pred, v, k) in among
    decreases k
  {
    if k > 0 { AncestorsStay(pred, among, v, k - 1); }
  }

  lemma {:induction false} NoAncestors(pred: seq<int>, k: nat)
    requires InRange(pred)
    ensures Ancestor(pred, -1, k) == -1
    decreases k
  {
    if k > 0 { NoAncestors(pred, k - 1); }
  }

  /** Each vertex of `path` is the predecessor of the next. */
  ghost predicate Linked(pred: seq<int>, path: seq<int>) {
    forall i :: 0 < i < |path| ==> 0 <= path[i] < |pred| && pred[path[i]] == path[i - 1]
  }

  ghost predicate ReachesBack(pred: seq<int>, start: int, v: int)
    requires InRange(pred) && -1 <= v < |pred|
  {
    exists k: nat :: Ancestor(pred, v, k) == start
  }

  lemma OneBack(pred: seq<int>, start: int, v: int)
    requires InRange(pred) && 0 <= v < |pred| && v != start
    ensures ReachesBack(pred, start, v) <==> ReachesBack(pred, start, pred[v])
  {
    if ReachesBack(pred, start, v) {
      var k: nat :| Ancestor(pred, v, k) == start;
      assert k > 0;
      AncestorShift(pred, v, k - 1);
    }
    if ReachesBack(pred, start, pred[v]) {
      var k: nat :| Ancestor(pred, pred[v], k) == start;
      AncestorShift(pred, v, k);
    }
  }

  /** A cycle that does not hold the start never leads back to it. */
  lemma CycleMisses(pred: seq<int>, start: nat, current: int, path: seq<int>)
    requires CanTrace(pred, start, current, path) && 0 <= current && current != start
    requires Linked(pred, [current] + path) && pred[current] in [current] + path
    ensures !ReachesBack(pred, start, current)
  {
    var cycle := [current] + path;
    forall x | x in cycle ensures 0 <= x < |pred| && pred[x] in cycle {
      var i :| 0 <= i < |cycle| && cycle[i] == x;
      if i > 0 { assert cycle[i - 1] in cycle; }
    }
    forall k: nat ensures Ancestor(pred, current, k) != start {
      AncestorsStay(pred, cycle, current, k);
    }
  }

  /** `r` comes from `start` along the predecessors to `current` and goes on with `path`. */
  ghost predicate LeadsTo(pred: seq<int>, start: int, current: int, path: seq<int>, r: seq<int>) {
    && |path| < |r| && r[0] == start && Linked(pred, r)
    && r[|r| - |path| - 1] == current && r[|r| - |path|..] == path
  }

  lemma LeadsFurther(pred: seq<int>, start: int, before: int, current: int, path: seq<int>, r: seq<int>)
    requires LeadsTo(pred, start, before, [current] + path, r)
    ensures LeadsTo(pred, start, current, path, r)
  {
    var n := |r| - |path| - 1;
    assert r[n..][0] == current && r[n..][1..] == path;
    assert r[n + 1..] == r[n..][1..];
  }

  lemma {:induction false} TraceFollows(pred: seq<int>, start: nat, current: int, path: seq<int>, r: seq<int>)
    requires CanTrace(pred, start, current, path) && r == Trace(pred, start, current, path)
    requires Linked(pred, path) && (path != [] ==> pred[path[0]] == current)
    ensures r != [] <==> ReachesBack(pred, start, current)
    ensures r != [] ==> LeadsTo(pred, start, current, path, r)
    decreases |pred| - |path|, current, 1
  {
    if current == -1 {
      forall k: nat ensures Ancestor(pred, current, k) != start { NoAncestors(pred, k); }
    } else if current == start {
      assert Ancestor(pred, current, 0) == start;
    } else {
      TraceOn(pred, start, current, path, r);
    }
  }

  lemma {:induction false} TraceOn(pred: seq<int>, start: nat, current: int, path: seq<int>, r: seq<int>)
    requires CanTrace(pred, start, current, path) && r == Trace(pred, start, current, path)
    requires Linked(pred, path) && (path != [] ==> pred[path[0]] == current)
    requires 0 <= current && current != start
    ensures r != [] <==> ReachesBack(pred, start, current)
    ensures r != [] ==> LeadsTo(pred, start, current, path, r)
    decreases |pred| - |path|, current, 0
  {
    var longer := [current] + path;
    DistinctBounded(longer, |pred|);
    if pred[current] in longer {
      CycleMisses(pred, start, current, path);
    } else {
      TraceFollows(pred, start, pred[current], longer, r);
      OneBack(pred, start, current);
      if r != [] { LeadsFurther(pred, start, pred[current], current, path, r); }
    }
  }

  /** Whatever the predecessors are, cyclic ones included: the traced path is empty exactly when they never lead from
      the goal back to the start, and otherwise it runs from the start to the goal along them. */
  lemma TraceExactly(pred: seq<int>, start: nat, goal: nat)
    requires InRange(pred) && start < |pred| && goal < |pred|
    ensures var path := Trace(pred, start, goal, []);
            && (path != [] <==> ReachesBack(pred, start, goal))
            && (path != [] ==> path[0] == start && path[|path| - 1] == goal && Linked(pred, path))
  {
    TraceFollows(pred, start, goal, [], Trace(pred, start, goal, []));
  }

  /** All tables from round `0` to round `n`, one round after the other. */
  function HistoryOf(g: Graph, n: nat): (ts: seq<Tables>)
    requires g.Valid()
    ensures |ts| == n + 1 && forall i :: 0 <= i <= n ==> ts[i] == Rounds(g, i) && TablesOk(g, ts[i])
  {
    if n == 0 then [Rounds(g, 0)] else HistoryOf(g, n - 1) + [Rounds(g, n)]
  }

  /** Round `i + 1` leads from table `i` to the next, and its flag tells whether it changes nothing. */
  ghost predicate RoundAt(g: Graph, ts: seq<Tables>, flags: seq<bool>, i: nat)
    requires g.Valid() && i < |flags| && i + 1 < |ts|
  {
    TablesOk(g, ts[i]) && ts[i + 1] == Round(g, ts[i]) && flags[i] == (ts[i + 1] == ts[i])
  }

  ghost predicate AllRounds(g: Graph, ts: seq<Tables>, flags: seq<bool>)
    requires g.Valid()
  {
    && |flags| == g.vertices && |ts| == g.vertices + 1
    && forall i {:trigger RoundAt(g, ts, flags, i)} :: 0 <= i < g.vertices ==> RoundAt(g, ts, flags, i)
  }

  lemma HistoryIsAllRounds(g: Graph)
    requires g.Valid()
    ensures AllRounds(g, HistoryOf(g, g.vertices), Flags(Quiet(g), g.vertices))
  {
    var ts, flags := HistoryOf(g, g.vertices), Flags(Quiet(g), g.vertices);
    forall i | 0 <= i < g.vertices ensures RoundAt(g, ts, flags, i) {
      FlagAt(Quiet(g), g.vertices, i);
    }
  }

  /** The plugin: rounds until one changes nothing, at most `vertices` of them, then the path. */
  method Algorithm(g: Graph) returns (path: seq<int>)
    requires g.Valid()
    ensures path == Trace(Final(g).pred, g.start, g.goal, [])
  {
    var distances, predecessors := StartTables(g);
    ghost var ts, flags := HistoryOf(g, g.vertices), Flags(Quiet(g), g.vertices);
    HistoryIsAllRounds(g);
    RunRounds(g, distances, predecessors, ts, flags);
    path := PathReconstruction(g.start, g.goal, predecessors);
  }

  /** The tables after `i` rounds, and where the loop will stop. */
  ghost predicate AtRound(ts: seq<Tables>, flags: seq<bool>, i: nat, changes: bool, dist: seq<Dist>, pred: seq<int>)
    requires i <= |flags|
  {
    && i < |ts| && dist == ts[i].dist && pred == ts[i].pred
    && StopFrom(flags, 0) == if changes then StopFrom(flags, i) else i
  }

  method RunRounds(g: Graph, distances: array<Dist>, predecessors: array<int>, ghost ts: seq<Tables>, ghost flags: seq<bool>)
    requires g.Valid() && AllRounds(g, ts, flags)
    requires AtRound(ts, flags, 0, true, distances[..], predecessors[..])
    modifies distances, predecessors
    ensures AtRound(ts, flags, StopFrom(flags, 0), false, distances[..], predecessors[..])
  {
    var order, groups := GroupEdgesByTargetNode(g.edges);
    var i := 0;
    var changes := true;
    while i < g.vertices && changes
      invariant 0 <= i <= g.vertices == |flags|
      invariant AtRound(ts, flags, i, changes, distances[..], predecessors[..])
      decreases g.vertices - i
    {
      changes := NextRound(g, order, groups, distances, predecessors, i, ts, flags);
      i := i + 1;
    }
  }

  method NextRound(g: Graph, order: seq<nat>, groups: map<nat, seq<Edge>>, distances: array<Dist>, predecessors: array<int>,
                   ghost i: nat, ghost ts: seq<Tables>, ghost flags: seq<bool>) returns (changes: bool)
    requires g.Valid() && AllRounds(g, ts, flags) && i < g.vertices && Grouped(g.edges, order, groups)
    requires AtRound(ts, flags, i, true, distances[..], predecessors[..])
    modifies distances, predecessors
    ensures AtRound(ts, flags, i + 1, changes, distances[..], predecessors[..])
  {
    assert RoundAt(g, ts, flags, i);
    changes := RunRound(g, order, groups, distances, predecessors, ts[i]);
  }

  method StartTables(g: Graph) returns (distances: array<Dist>, predecessors: array<int>)
    requires g.Valid()
    ensures fresh(distances) && fresh(predecessors)
    ensures distances[..] == Init(g).dist && predecessors[..] == Init(g).pred
  {
    distances := new Dist[g.vertices](_ => None);
    predecessors := new int[g.vertices](_ => -1);
    distances[g.start] := Some(0.0);
  }

  /** One round: all computations on the frozen distances, then all updates. */
  method RunRound(g: Graph, order: seq<nat>, groups: map<nat, seq<Edge>>, distances: array<Dist>, predecessors: array<int>, ghost t: Tables)
      returns (changes: bool)
    requires g.Valid() && TablesOk(g, t) && distances.Length == predecessors.Length == g.vertices
    requires distances[..] == t.dist && predecessors[..] == t.pred
    requires Grouped(g.edges, order, groups)
    modifies distances, predecessors
    ensures distances[..] == Round(g, t).dist && predecessors[..] == Round(g, t).pred
    ensures changes <==> Round(g, t) != t
  {
    var results := ComputeAll(g, order, groups, distances[..], t);
    forall v | 0 <= v < g.vertices && v !in order ensures Found(g, t, v).None? {
      NoInEdges(g.edges, v);
    }
    changes := ApplyAll(g, order, results, distances, predecessors, t);
  }

  method ComputeAll(g: Graph, order: seq<nat>, groups: map<nat, seq<Edge>>, frozen: seq<Dist>, ghost t: Tables)
      returns (results: seq<Option<Update>>)
    requires g.Valid() && TablesOk(g, t) && frozen == t.dist
    requires Grouped(g.edges, order, groups)
    ensures |results| == |order|
    ensures forall j :: 0 <= j < |order| ==> order[j] < g.vertices && results[j] == Found(g, t, order[j])
  {
    results := [];
    for i := 0 to |order|
      invariant |results| == i
      invariant forall j :: 0 <= j < i ==> order[j] < g.vertices && results[j] == Found(g, t, order[j])
    {
      var u := ComputeOne(g, order, groups, frozen, i, t);
      results := results + [u];
    }
  }

  method ComputeOne(g: Graph, order: seq<nat>, groups: map<nat, seq<Edge>>, frozen: seq<Dist>, i: nat, ghost t: Tables)
      returns (u: Option<Update>)
    requires g.Valid() && TablesOk(g, t) && frozen == t.dist
    requires Grouped(g.edges, order, groups) && i < |order|
    ensures order[i] < g.vertices && u == Found(g, t, order[i])
  {
    assert order[i] in order;
    u := ComputeNode(order[i], groups[order[i]], frozen);
  }

  /** The first `i` targets of `order` have their updates, the other vertices are as before. */
  predicate Partly(g: Graph, t: Tables, done: seq<nat>, dist: seq<Dist>, pred: seq<int>)
    requires g.Valid() && TablesOk(g, t)
  {
    && |dist| == |pred| == g.vertices
    && forall v :: 0 <= v < g.vertices ==>
         if v in done then Applied(g, t, dist[v], pred[v], v) else dist[v] == t.dist[v] && pred[v] == t.pred[v]
  }

  lemma PartlyStep(g: Graph, t: Tables, done: seq<nat>, to: nat, dist: seq<Dist>, pred: seq<int>, u: Option<Update>)
    requires g.Valid() && TablesOk(g, t) && Partly(g, t, done, dist, pred)
    requires to < g.vertices && to !in done && u == Found(g, t, to)
    ensures u.Some? ==> u.value.to == to && u.value.from < g.vertices
    ensures if u.Some? then Partly(g, t, done + [to], dist[to := Some(u.value.distance)], pred[to := u.value.from])
            else Partly(g, t, done + [to], dist, pred)
  {
    RelaxIsMinimum(InEdges(g.edges, to), t.dist, to);
  }

  lemma AppliedIsRound(g: Graph, t: Tables, done: seq<nat>, dist: seq<Dist>, pred: seq<int>)
    requires g.Valid() && TablesOk(g, t) && Partly(g, t, done, dist, pred)
    requires forall v :: 0 <= v < g.vertices && v !in done ==> Found(g, t, v).None?
    ensures dist == Round(g, t).dist && pred == Round(g, t).pred
  {
    var t' := Round(g, t);
    forall v | 0 <= v < g.vertices ensures dist[v] == t'.dist[v] && pred[v] == t'.pred[v] {
      UpdatedAt(g, t, g.vertices, v);
    }
  }

  lemma AnyFound(g: Graph, t: Tables, order: seq<nat>, results: seq<Option<Update>>)
    requires g.Valid() && TablesOk(g, t) && |results| == |order|
    requires forall j :: 0 <= j < |order| ==> order[j] < g.vertices && results[j] == Found(g, t, order[j])
    requires forall v :: 0 <= v < g.vertices && v !in order ==> Found(g, t, v).None?
    ensures SomeFound(results, |order|) <==> Round(g, t) != t
  {
    if j :| 0 <= j < |order| && results[j].Some? {
      RelaxIsMinimum(InEdges(g.edges, order[j]), t.dist, order[j]);
      UpdatedAt(g, t, g.vertices, order[j]);
      assert Round(g, t).dist[order[j]] != t.dist[order[j]];
    } else {
      forall v | 0 <= v < g.vertices ensures Found(g, t, v).None? {
        if v in order {
          var j :| 0 <= j < |order| && order[j] == v;
        }
      }
      AppliedIsRound(g, t, [], t.dist, t.pred);
    }
  }

  method ApplyOne(g: Graph, result: Option<Update>, distances: array<Dist>, predecessors: array<int>,
                  ghost t: Tables, ghost done: seq<nat>, ghost to: nat)
    requires g.Valid() && TablesOk(g, t) && Partly(g, t, done, distances[..], predecessors[..])
    requires to < g.vertices && to !in done && result == Found(g, t, to)
    modifies distances, predecessors
    ensures Partly(g, t, done + [to], distances[..], predecessors[..])
  {
    ghost var dist, pred := distances[..], predecessors[..];
    PartlyStep(g, t, done, to, dist, pred, result);
    if result.Some? {
      var update := result.value;
      distances[update.to] := Some(update.distance);
      predecessors[update.to] := update.from;
      assert distances[..] == dist[to := Some(update.distance)] && predecessors[..] == pred[to := update.from];
    }
  }

  ghost predicate SomeFound(results: seq<Option<Update>>, n: nat)
    requires n <= |results|
  {
    exists j :: 0 <= j < n && results[j].Some?
  }

  method ApplyAll(g: Graph, order: seq<nat>, results: seq<Option<Update>>, distances: array<Dist>, predecessors: array<int>, ghost t: Tables)
      returns (changes: bool)
    requires g.Valid() && TablesOk(g, t) && distances.Length == predecessors.Length == g.vertices
    requires distances[..] == t.dist && predecessors[..] == t.pred
    requires |results| == |order| && forall i, j :: 0 <= i < j < |order| ==> order[i] != order[j]
    requires forall j :: 0 <= j < |order| ==> order[j] < g.vertices && results[j] == Found(g, t, order[j])
    requires forall v :: 0 <= v < g.vertices && v !in order ==> Found(g, t, v).None?
    modifies distances, predecessors
    ensures distances[..] == Round(g, t).dist && predecessors[..] == Round(g, t).pred
    ensures changes <==> Round(g, t) != t
  {
    changes := false;
    for i := 0 to |order|
      invariant changes == SomeFound(results, i)
      invariant Partly(g, t, order[..i], distances[..], predecessors[..])
    {
      assert order[i] !in order[..i];
      assert order[..i + 1] == order[..i] + [order[i]];
      ApplyOne(g, results[i], distances, predecessors, t, order[..i], order[i]);
      assert SomeFound(results, i + 1) == (SomeFound(results, i) || results[i].Some?);
      if results[i].Some? { changes := true; }
    }
    assert order[..|order|] == order;
    AppliedIsRound(g, t, order, distances[..], predecessors[..]);
    AnyFound(g, t, order, results);
  }
}
