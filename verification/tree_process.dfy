// Distributed termination detection by counting: one worker per directory reports the subdirectories it finds
// to a coordinator that starts more workers while it collects results (examples-classic/tree).
module TreeProcess {
  import opened Wrappers

  type Path = string

  /** An entry of the tree with what is listed below it. */
  datatype Node = Node(path: Path, children: seq<Node>)

  predicate IsDirectory(n: Node) {
    n.path != "" && n.path[|n.path| - 1] == '/'
  }

  function Directories(entries: seq<Node>): seq<Node> {
    if entries == [] then []
    else
      var rest, last := Directories(entries[..|entries| - 1]), entries[|entries| - 1];
      if IsDirectory(last) then rest + [last] else rest
  }

  function Files(entries: seq<Node>): seq<Path> {
    if entries == [] then []
    else
      var rest, last := Files(entries[..|entries| - 1]), entries[|entries| - 1];
      if IsDirectory(last) then rest else rest + [last.path]
  }

  lemma {:induction false} ListingAppend(a: seq<Node>, b: seq<Node>)
    ensures Files(a + b) == Files(a) + Files(b) && Directories(a + b) == Directories(a) + Directories(b)
    decreases |b|
  {
    if b == [] {
      assert a + b == a;
    } else {
      assert (a + b)[..|a + b| - 1] == a + b[..|b| - 1];
      ListingAppend(a, b[..|b| - 1]);
    }
  }

  /** Every entry of a listing is a directory, when its path ends in a slash, or else a file: it counts in its
      place on the one side and not at all on the other. */
  lemma EntryIsEither(before: seq<Node>, entry: Node, after: seq<Node>)
    ensures var entries := before + [entry] + after;
            if exists stem :: entry.path == stem + "/"
            then Files(entries) == Files(before + after)
                 && Directories(entries) == Directories(before) + [entry] + Directories(after)
            else Files(entries) == Files(before) + [entry.path] + Files(after)
                 && Directories(entries) == Directories(before + after)
  {
    ListingAppend(before + [entry], after);
    ListingAppend(before, [entry]);
    ListingAppend(before, after);
    if IsDirectory(entry) {
      assert entry.path == entry.path[..|entry.path| - 1] + "/";
      assert Directories([entry]) == [] + [entry] && Files([entry]) == [];
    } else {
      assert Directories([entry]) == [] && Files([entry]) == [] + [entry.path];
    }
  }

  // ---- The whole tree, read recursively ----

  function AllFiles(n: Node): multiset<Path> {
    multiset(Files(n.children)) + AllFilesIn(n.children)
  }

  function AllFilesIn(entries: seq<Node>): multiset<Path> {
    if entries == [] then multiset{}
    else
      var rest, last := AllFilesIn(entries[..|entries| - 1]), entries[|entries| - 1];
      if IsDirectory(last) then rest + AllFiles(last) else rest
  }

  function AllDirs(n: Node): multiset<Path> {
    multiset{n.path} + AllDirsIn(n.children)
  }

  function AllDirsIn(entries: seq<Node>): multiset<Path> {
    if entries == [] then multiset{}
    else
      var rest, last := AllDirsIn(entries[..|entries| - 1]), entries[|entries| - 1];
      if IsDirectory(last) then rest + AllDirs(last) else rest
  }

  // ---- The coordinator ----

  datatype Coordinator = Coordinator(invocations: seq<Path>, results: seq<seq<Path>>, files: Option<seq<Path>>)

  function Flat(rs: seq<seq<Path>>): seq<Path> {
    if rs == [] then [] else Flat(rs[..|rs| - 1]) + rs[|rs| - 1]
  }

  lemma {:induction false} FlatAppend(a: seq<seq<Path>>, b: seq<seq<Path>>)
    ensures Flat(a + b) == Flat(a) + Flat(b)
    decreases |b|
  {
    if b == [] {
      assert a + b == a;
    } else {
      assert (a + b)[..|a + b| - 1] == a + b[..|b| - 1];
      FlatAppend(a, b[..|b| - 1]);
    }
  }

  /** Flattened, each result keeps its place among the others. */
  lemma FlatInOrder(before: seq<seq<Path>>, result: seq<Path>, after: seq<seq<Path>>)
    ensures Flat(before + [result] + after) == Flat(before) + result + Flat(after)
  {
    FlatAppend(before + [result], after);
    assert (before + [result])[..|before|] == before;
  }

  function OnMessage(c: Coordinator, paths: seq<Path>): Coordinator {
    c.(invocations := c.invocations + paths)
  }

  function OnResult(c: Coordinator, result: seq<Path>): Coordinator {
    var rs := c.results + [result];
    c.(results := rs, files := if |rs| == |c.invocations| && c.files.None? then Some(Flat(rs)) else c.files)
  }

  class Process {
    var invocations: seq<Path>
    var results: seq<seq<Path>>
    var files: Option<seq<Path>>

    ghost function Abs(): Coordinator
      reads this
    {
      Coordinator(invocations, results, files)
    }

    /** Starts with one invocation for the root. */
    constructor (root: Path)
      ensures Abs() == Coordinator([root], [], None)
    {
      invocations, results, files := [root], [], None;
    }

    method InvokeProcessNode(path: Path)
      modifies this`invocations
      ensures Abs() == OnMessage(old(Abs()), [path])
    {
      invocations := invocations + [path];
    }

    method HandleMessage(paths: seq<Path>)
      modifies this`invocations
      ensures Abs() == OnMessage(old(Abs()), paths)
    {
      for i := 0 to |paths|
        invariant invocations == old(invocations) + paths[..i]
      {
        InvokeProcessNode(paths[i]);
      }
      assert paths[..|paths|] == paths;
    }

    /** An invocation has resolved; a promise resolves only once. */
    method Complete(result: seq<Path>)
      modifies this`results, this`files
      ensures Abs() == OnResult(old(Abs()), result)
    {
      results := results + [result];
      if |results| == |invocations| && files.None? {
        var flat: seq<Path> := [];
        for i := 0 to |results|
          invariant flat == Flat(results[..i])
        {
          assert results[..i + 1][..i] == results[..i];
          flat := flat + results[i];
        }
        assert results[..|results|] == results;
        files := Some(flat);
      }
    }
  }

  // ---- The whole system ----

  /** A worker awaits the handling of its report before it goes on to return its files. */
  datatype Phase = Reporting | Working | Returned | Collected

  datatype Worker = Worker(node: Node, phase: Phase)

  datatype World = World(c: Coordinator, workers: seq<Worker>)

  function Paths(ns: seq<Node>): (ps: seq<Path>)
    ensures |ps| == |ns| && forall k :: 0 <= k < |ns| ==> ps[k] == ns[k].path
  {
    seq(|ns|, k requires 0 <= k < |ns| => ns[k].path)
  }

  function Started(ns: seq<Node>): (ws: seq<Worker>)
    ensures |ws| == |ns| && forall k :: 0 <= k < |ns| ==> ws[k] == Worker(ns[k], Reporting)
  {
    seq(|ns|, k requires 0 <= k < |ns| => Worker(ns[k], Reporting))
  }

  function Init(root: Node): World {
    World(Coordinator([root.path], [], None), [Worker(root, Reporting)])
  }

  function Move(w: World, i: nat): World
    requires i < |w.workers| && !w.workers[i].phase.Collected?
  {
    var node := w.workers[i].node;
    match w.workers[i].phase
    case Reporting =>
      var dirs := Directories(node.children);
      World(OnMessage(w.c, Paths(dirs)), w.workers[i := Worker(node, Working)] + Started(dirs))
    case Working => w.(workers := w.workers[i := Worker(node, Returned)])
    case Returned => World(OnResult(w.c, Files(node.children)), w.workers[i := Worker(node, Collected)])
  }

  ghost predicate Step(w: World, w': World) {
    exists i: nat :: i < |w.workers| && !w.workers[i].phase.Collected? && w' == Move(w, i)
  }

  ghost predicate CanStep(w: World) {
    exists w' :: Step(w, w')
  }

  ghost predicate StepTo(ws: seq<World>, k: nat)
    requires 0 < k < |ws|
  {
    Step(ws[k - 1], ws[k])
  }

  ghost predicate IsRun(root: Node, ws: seq<World>) {
    && ws != [] && ws[0] == Init(root)
    && forall k :: 0 < k < |ws| ==> StepTo(ws, k)
  }

  // ---- Conservation ----

  /** Files a worker still has to bring in, by itself and through the workers its report will start. */
  function FilesOwed(w: Worker): multiset<Path> {
    match w.phase
    case Reporting => AllFiles(w.node)
    case Collected => multiset{}
    case _ => multiset(Files(w.node.children))
  }

  function DirsOwed(w: Worker): multiset<Path> {
    if w.phase.Reporting? then AllDirsIn(w.node.children) else multiset{}
  }

  /** Steps still to be taken for a worker and those its report will start. */
  function StepsOwed(w: Worker): nat {
    match w.phase
    case Reporting => 3 * |AllDirs(w.node)|
    case Working => 2
    case Returned => 1
    case Collected => 0
  }

  /** What all of `ws` owe together. */
  function Due(owed: Worker -> multiset<Path>, ws: seq<Worker>): multiset<Path> {
    if ws == [] then multiset{} else Due(owed, ws[..|ws| - 1]) + owed(ws[|ws| - 1])
  }

  function StepsDue(ws: seq<Worker>): nat {
    if ws == [] then 0 else StepsDue(ws[..|ws| - 1]) + StepsOwed(ws[|ws| - 1])
  }

  function Returns(ws: seq<Worker>): nat {
    if ws == [] then 0 else Returns(ws[..|ws| - 1]) + if ws[|ws| - 1].phase.Collected? then 1 else 0
  }

  lemma {:induction false} DueUpdate(owed: Worker -> multiset<Path>, ws: seq<Worker>, i: nat, w: Worker, x: Path)
    requires i < |ws|
    ensures Due(owed, ws[i := w])[x] + owed(ws[i])[x] == Due(owed, ws)[x] + owed(w)[x]
    decreases |ws|
  {
    var n := |ws| - 1;
    if i < n {
      DueUpdate(owed, ws[..n], i, w, x);
      assert ws[i := w][..n] == ws[..n][i := w];
    } else {
      assert ws[i := w][..n] == ws[..n];
    }
  }

  lemma {:induction false} CountsUpdate(ws: seq<Worker>, i: nat, w: Worker)
    requires i < |ws|
    ensures StepsDue(ws[i := w]) + StepsOwed(ws[i]) == StepsDue(ws) + StepsOwed(w)
    ensures Returns(ws[i := w]) + (if ws[i].phase.Collected? then 1 else 0) == Returns(ws) + if w.phase.Collected? then 1 else 0
    decreases |ws|
  {
    var n := |ws| - 1;
    if i < n {
      CountsUpdate(ws[..n], i, w);
      assert ws[i := w][..n] == ws[..n][i := w];
    } else {
      assert ws[i := w][..n] == ws[..n];
    }
  }

  lemma StartedLast(ws: seq<Worker>, entries: seq<Node>)
    requires entries != [] && IsDirectory(entries[|entries| - 1])
    ensures var n := |entries| - 1;
            var before, all := ws + Started(Directories(entries[..n])), ws + Started(Directories(entries));
            && all != [] && all[|all| - 1] == Worker(entries[n], Reporting) && all[..|all| - 1] == before
            && Paths(Directories(entries)) == Paths(Directories(entries[..n])) + [entries[n].path]
  {
    var n := |entries| - 1;
    assert Directories(entries) == Directories(entries[..n]) + [entries[n]];
    assert Started(Directories(entries)) == Started(Directories(entries[..n])) + [Worker(entries[n], Reporting)];
  }

  /** What the workers of the directories among `entries` owe is what lies below these. */
  lemma {:induction false} FilesStarted(ws: seq<Worker>, entries: seq<Node>, x: Path)
    ensures Due(FilesOwed, ws + Started(Directories(entries)))[x] == Due(FilesOwed, ws)[x] + AllFilesIn(entries)[x]
    decreases |entries|
  {
    if entries == [] {
      assert ws + Started(Directories(entries)) == ws;
    } else {
      FilesStarted(ws, entries[..|entries| - 1], x);
      if IsDirectory(entries[|entries| - 1]) { StartedLast(ws, entries); }
    }
  }

  lemma {:induction false} DirsStarted(ws: seq<Worker>, entries: seq<Node>, x: Path)
    ensures Due(DirsOwed, ws + Started(Directories(entries)))[x] + multiset(Paths(Directories(entries)))[x] == Due(DirsOwed, ws)[x] + AllDirsIn(entries)[x]
    decreases |entries|
  {
    if entries == [] {
      assert ws + Started(Directories(entries)) == ws;
    } else {
      DirsStarted(ws, entries[..|entries| - 1], x);
      if IsDirectory(entries[|entries| - 1]) { StartedLast(ws, entries); }
    }
  }

  lemma {:induction false} CountsStarted(ws: seq<Worker>, entries: seq<Node>)
    ensures StepsDue(ws + Started(Directories(entries))) == StepsDue(ws) + 3 * |AllDirsIn(entries)|
    ensures Returns(ws + Started(Directories(entries))) == Returns(ws)
    decreases |entries|
  {
    if entries == [] {
      assert ws + Started(Directories(entries)) == ws;
    } else {
      CountsStarted(ws, entries[..|entries| - 1]);
      if IsDirectory(entries[|entries| - 1]) { StartedLast(ws, entries); }
    }
  }

  /** Files collected and files owed make up the tree; so do directories invoked and directories owed. */
  ghost predicate Conserved(root: Node, w: World) {
    && |w.c.invocations| == |w.workers| > 0
    && multiset(Flat(w.c.results)) + Due(FilesOwed, w.workers) == AllFiles(root)
    && multiset(w.c.invocations) + Due(DirsOwed, w.workers) == AllDirs(root)
    && |w.c.results| == Returns(w.workers)
    && (w.c.files.Some? <==> |w.c.results| == |w.c.invocations|)
    && (w.c.files.Some? ==> w.c.files.value == Flat(w.c.results))
  }

  lemma {:induction false} AllReturned(ws: seq<Worker>)
    ensures Returns(ws) <= |ws|
    ensures Returns(ws) == |ws| <==> forall i :: 0 <= i < |ws| ==> ws[i].phase.Collected?
    ensures Returns(ws) == |ws| ==> Due(FilesOwed, ws) == multiset{} && Due(DirsOwed, ws) == multiset{}
    decreases |ws|
  {
    if ws != [] {
      var n := |ws| - 1;
      AllReturned(ws[..n]);
      assert (forall i :: 0 <= i < |ws| ==> ws[i].phase.Collected?) <==>
             ws[n].phase.Collected? && forall i :: 0 <= i < n ==> ws[..n][i].phase.Collected?;
    }
  }

  lemma MoveCounts(w: World, i: nat, w': World)
    requires i < |w.workers| && !w.workers[i].phase.Collected? && w' == Move(w, i)
    requires |w.c.results| == Returns(w.workers)
    ensures |w'.c.results| == Returns(w'.workers)
    ensures StepsDue(w'.workers) == StepsDue(w.workers) - 1
  {
    var moved := Moved(w.workers[i]);
    CountsUpdate(w.workers, i, moved);
    if w.workers[i].phase.Reporting? { CountsStarted(w.workers[i := moved], moved.node.children); }
  }

  function Moved(w: Worker): Worker {
    w.(phase := if w.phase.Reporting? then Working else if w.phase.Working? then Returned else Collected)
  }

  lemma MoveFiles(w: World, i: nat, w': World, x: Path)
    requires i < |w.workers| && !w.workers[i].phase.Collected? && w' == Move(w, i)
    ensures multiset(Flat(w'.c.results))[x] + Due(FilesOwed, w'.workers)[x] == multiset(Flat(w.c.results))[x] + Due(FilesOwed, w.workers)[x]
  {
    var moved := Moved(w.workers[i]);
    DueUpdate(FilesOwed, w.workers, i, moved, x);
    if w.workers[i].phase.Reporting? { FilesStarted(w.workers[i := moved], moved.node.children, x); }
    if w.workers[i].phase.Returned? { assert w'.c.results[..|w.c.results|] == w.c.results; }
  }

  lemma MoveDirs(w: World, i: nat, w': World, x: Path)
    requires i < |w.workers| && !w.workers[i].phase.Collected? && w' == Move(w, i)
    ensures multiset(w'.c.invocations)[x] + Due(DirsOwed, w'.workers)[x] == multiset(w.c.invocations)[x] + Due(DirsOwed, w.workers)[x]
  {
    var moved := Moved(w.workers[i]);
    DueUpdate(DirsOwed, w.workers, i, moved, x);
    if w.workers[i].phase.Reporting? { DirsStarted(w.workers[i := moved], moved.node.children, x); }
  }

  lemma SumsAgree(a: multiset<Path>, b: multiset<Path>, c: multiset<Path>, d: multiset<Path>)
    requires forall x: Path :: a[x] + b[x] == c[x] + d[x]
    ensures a + b == c + d
  {
  }

  lemma MoveFilesSum(w: World, i: nat, w': World)
    requires i < |w.workers| && !w.workers[i].phase.Collected? && w' == Move(w, i)
    ensures multiset(Flat(w'.c.results)) + Due(FilesOwed, w'.workers) == multiset(Flat(w.c.results)) + Due(FilesOwed, w.workers)
  {
    var a, b := multiset(Flat(w'.c.results)), Due(FilesOwed, w'.workers);
    var c, d := multiset(Flat(w.c.results)), Due(FilesOwed, w.workers);
    forall x: Path ensures a[x] + b[x] == c[x] + d[x] { MoveFiles(w, i, w', x); }
    SumsAgree(a, b, c, d);
  }

  lemma MoveDirsSum(w: World, i: nat, w': World)
    requires i < |w.workers| && !w.workers[i].phase.Collected? && w' == Move(w, i)
    ensures multiset(w'.c.invocations) + Due(DirsOwed, w'.workers) == multiset(w.c.invocations) + Due(DirsOwed, w.workers)
  {
    var a, b := multiset(w'.c.invocations), Due(DirsOwed, w'.workers);
    var c, d := multiset(w.c.invocations), Due(DirsOwed, w.workers);
    forall x: Path ensures a[x] + b[x] == c[x] + d[x] { MoveDirs(w, i, w', x); }
    SumsAgree(a, b, c, d);
  }

  lemma MoveConserves(root: Node, w: World, i: nat, w': World)
    requires Conserved(root, w) && i < |w.workers| && !w.workers[i].phase.Collected? && w' == Move(w, i)
    ensures Conserved(root, w')
    ensures StepsDue(w'.workers) == StepsDue(w.workers) - 1
  {
    AllReturned(w.workers);
    MoveCounts(w, i, w');
    MoveFilesSum(w, i, w');
    MoveDirsSum(w, i, w');
  }

  lemma StepConserves(root: Node, w: World, w': World)
    requires Conserved(root, w) && Step(w, w')
    ensures Conserved(root, w')
    ensures StepsDue(w'.workers) == StepsDue(w.workers) - 1
  {
    var i: nat :| i < |w.workers| && !w.workers[i].phase.Collected? && w' == Move(w, i);
    MoveConserves(root, w, i, w');
  }

  lemma {:induction false} RunConserves(root: Node, ws: seq<World>, k: nat)
    requires IsRun(root, ws) && k < |ws|
    ensures Conserved(root, ws[k])
    ensures StepsDue(ws[k].workers) == 3 * |AllDirs(root)| - k
    decreases k
  {
    if k == 0 {
      assert ws[0].workers[..0] == [];
    } else {
      RunConserves(root, ws, k - 1);
      assert StepTo(ws, k);
      StepConserves(root, ws[k - 1], ws[k]);
    }
  }

  // ---- Main results ----

  /** The count detects termination: in every interleaving it first matches exactly when each directory of the
      tree has been invoked and has returned, and the payload then holds every file of the tree. */
  lemma CountDetectsTermination(root: Node, ws: seq<World>, k: nat)
    requires IsRun(root, ws) && k < |ws|
    ensures var w := ws[k];
            && (w.c.files.Some? <==> |w.c.results| == |w.c.invocations|)
            && (w.c.files.Some? <==>
                  multiset(w.c.invocations) == AllDirs(root) && forall i :: 0 <= i < |w.workers| ==> w.workers[i].phase.Collected?)
            && (w.c.files.Some? ==> multiset(w.c.files.value) == AllFiles(root))
  {
    RunConserves(root, ws, k);
    AllReturned(ws[k].workers);
  }

  /** Every run takes exactly three steps for each directory and then has resolved: before that, some worker can
      go on; after that, none can. */
  lemma EveryRunEnds(root: Node, ws: seq<World>)
    requires IsRun(root, ws)
    ensures |ws| - 1 <= 3 * |AllDirs(root)|
    ensures |ws| - 1 == 3 * |AllDirs(root)| <==> ws[|ws| - 1].c.files.Some?
    ensures ws[|ws| - 1].c.files.None? <==> CanStep(ws[|ws| - 1])
  {
    var last := ws[|ws| - 1];
    RunConserves(root, ws, |ws| - 1);
    AllReturned(last.workers);
    NothingDue(last.workers);
    if last.c.files.None? {
      var i: nat :| i < |last.workers| && !last.workers[i].phase.Collected?;
      assert Step(last, Move(last, i));
    }
  }

  lemma {:induction false} NothingDue(ws: seq<Worker>)
    ensures StepsDue(ws) == 0 <==> forall i :: 0 <= i < |ws| ==> ws[i].phase.Collected?
    decreases |ws|
  {
    if ws != [] {
      var n := |ws| - 1;
      NothingDue(ws[..n]);
      assert (forall i :: 0 <= i < |ws| ==> ws[i].phase.Collected?) <==>
             ws[n].phase.Collected? && forall i :: 0 <= i < n ==> ws[..n][i].phase.Collected?;
    }
  }
}
