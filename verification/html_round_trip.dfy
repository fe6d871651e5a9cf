// Writing the flattened events of a forest, and what comes back.
module HtmlRoundTrip {
  import opened Wrappers
  import opened HtmlBuilding
  import opened HtmlForests

  // ---- Forests and their events ----

  function AttrEvents(attrs: Attributes): (es: seq<Element>)
    ensures |es| == |attrs| && forall k :: 0 <= k < |es| ==> es[k] == Attr(attrs[k].0, attrs[k].1)
  {
    seq(|attrs|, k requires 0 <= k < |attrs| => Attr(attrs[k].0, attrs[k].1))
  }

  function Closing(name: string): Element { Tag("/" + name) }

  function FlattenTree(t: Tree): seq<Element> {
    match t.elem
    case Tag(name) => [t.elem] + AttrEvents(t.attrs) + Flatten(t.kids) + [Closing(name)]
    case _ => [t.elem]
  }

  function Flatten(f: seq<Tree>): seq<Element> {
    if f == [] then [] else Flatten(f[..|f| - 1]) + FlattenTree(f[|f| - 1])
  }

  predicate IsVoid(t: Tree) { t.elem.Tag? && IsEmptyTag(t.elem.name) }

  ghost predicate CanonicalAttrs(attrs: Attributes) {
    && (forall k :: 0 <= k < |attrs| ==> Lower(attrs[k].0) == attrs[k].0 && attrs[k].0 != "__proto__")
    && (forall j, k :: 0 <= j < k < |attrs| ==> attrs[j].0 != attrs[k].0)
  }

  /** Lower-case names, distinct attribute names, and void tags childless. */
  ghost predicate CanonicalTree(t: Tree) {
    && (t.elem.Tag? ==>
          && Lower(t.elem.name) == t.elem.name && !StartsWith(t.elem.name, '/') && CanonicalAttrs(t.attrs)
          && (IsVoid(t) ==> t.kids == []) && Canonical(t.kids))
    && !t.elem.Attr?
    && (t.elem.Leaf? ==> t.attrs == [] && t.kids == [])
  }

  ghost predicate Canonical(f: seq<Tree>) {
    f != [] ==> Canonical(f[..|f| - 1]) && CanonicalTree(f[|f| - 1])
  }

  // ---- What is rebuilt ----

  function AssignAll(attrs: Attributes, more: Attributes): Attributes {
    if more == [] then attrs
    else var m := |more| - 1; Assign(AssignAll(attrs, more[..m]), more[m].0, more[m].1)
  }

  function Moved(t: Tree): Attributes { if IsVoid(t) then t.attrs else [] }

  /** The attributes written on void tags of `f`. */
  function VoidAttrs(f: seq<Tree>): Attributes {
    if f == [] then [] else VoidAttrs(f[..|f| - 1]) + Moved(f[|f| - 1])
  }

  /** A void child never is on the stack, so its attributes end up on its parent. */
  function Rebuilt(t: Tree): Tree
    decreases t, 0
  {
    if t.elem.Tag? then Tree(t.elem, AssignAll(t.attrs, VoidAttrs(t.kids)), RebuiltAll(t.kids, true)) else t
  }

  function RebuiltAs(t: Tree, inside: bool): Tree
    decreases t, 1
  {
    if inside && IsVoid(t) then Tree(t.elem, [], t.kids) else Rebuilt(t)
  }

  function RebuiltAll(f: seq<Tree>, inside: bool): seq<Tree>
    decreases f, 0
  {
    if f == [] then [] else RebuiltAll(f[..|f| - 1], inside) + [RebuiltAs(f[|f| - 1], inside)]
  }

  // ---- Writing, piece by piece ----

  lemma {:induction false} WriteAllAppend(s: State, a: seq<Element>, b: seq<Element>)
    requires WellFormed(s)
    ensures WriteAll(s, a + b) == WriteAll(WriteAll(s, a), b)
    decreases |b|
  {
    if b == [] {
      assert a + b == a;
    } else {
      assert (a + b)[..|a + b| - 1] == a + b[..|b| - 1];
      WriteAllAppend(s, a, b[..|b| - 1]);
    }
  }

  lemma WriteOne(s: State, e: Element)
    requires WellFormed(s)
    ensures WriteAll(s, [e]) == Step(s, e)
  {
    assert [e][..0] == [];
    assert WriteAll(s, []) == s;
  }

  ghost predicate Good(s: State) {
    WellFormed(s) && Listed(s.arena, s.dom) && OpenTags(s)
  }

  function Target(s: State): nat
    requires s.stack != [] || s.last.Some?
  {
    if s.stack != [] then s.stack[|s.stack| - 1] else s.last.value
  }

  function WithAttrs(s: State, i: nat, attrs: Attributes): (s': State)
    requires WellFormed(s) && i < |s.arena|
    ensures WellFormed(s')
  {
    s.(arena := s.arena[i := s.arena[i].(attrs := attrs)])
  }

  lemma {:induction false} WriteAttrs(s: State, attrs: Attributes)
    requires WellFormed(s) && (s.stack != [] || s.last.Some?)
    requires forall k :: 0 <= k < |attrs| ==> Lower(attrs[k].0) == attrs[k].0
    ensures WriteAll(s, AttrEvents(attrs)) == WithAttrs(s, Target(s), AssignAll(s.arena[Target(s)].attrs, attrs))
    decreases |attrs|
  {
    var i := Target(s);
    if attrs == [] {
      assert WithAttrs(s, i, s.arena[i].attrs).arena == s.arena;
    } else {
      var m := |attrs| - 1;
      WriteAttrs(s, attrs[..m]);
      assert AttrEvents(attrs)[..m] == AttrEvents(attrs[..m]);
      WithAttr(s, i, AssignAll(s.arena[i].attrs, attrs[..m]), attrs[m].0, attrs[m].1);
    }
  }

  lemma WithAttr(s: State, i: nat, attrs: Attributes, name: string, data: Option<string>)
    requires WellFormed(s) && (s.stack != [] || s.last.Some?) && i == Target(s) && Lower(name) == name
    ensures Step(WithAttrs(s, i, attrs), Attr(name, data)) == WithAttrs(s, i, Assign(attrs, name, data))
  {
    assert WithAttrs(s, i, attrs).arena[i].attrs == attrs;
  }

  /** The first nodes of `arena'` are `arena`, up to what the innermost open tag got. */
  ghost predicate Kept(arena: seq<Rec>, arena': seq<Rec>, stack: seq<nat>, roots: seq<nat>, moved: Attributes) {
    && |arena| <= |arena'|
    && forall i :: 0 <= i < |arena| ==>
         arena'[i] == if stack != [] && i == stack[|stack| - 1]
                      then Rec(arena[i].elem, AssignAll(arena[i].attrs, moved), arena[i].kids + roots)
                      else arena[i]
  }

  lemma KeptTwice(a: seq<Rec>, a1: seq<Rec>, a2: seq<Rec>, stack: seq<nat>,
                  r1: seq<nat>, m1: Attributes, r2: seq<nat>, m2: Attributes)
    requires Kept(a, a1, stack, r1, m1) && Kept(a1, a2, stack, r2, m2)
    ensures Kept(a, a2, stack, r1 + r2, m1 + m2)
  {
    forall i | 0 <= i < |a| && stack != [] && i == stack[|stack| - 1]
      ensures a2[i] == Rec(a[i].elem, AssignAll(a[i].attrs, m1 + m2), a[i].kids + (r1 + r2))
    {
      AssignAllAppend(a[i].attrs, m1, m2);
      assert a[i].kids + (r1 + r2) == a[i].kids + r1 + r2;
    }
  }

  /** `roots`, all at or above `lo`, stand for the trees `built`. */
  ghost predicate Roots(arena: seq<Rec>, roots: seq<nat>, lo: nat, built: seq<Tree>) {
    Listed(arena, roots) && Within(roots, lo, |arena|) && Forest(arena, roots) == built
  }

  /** New trees at `roots` hang below the innermost open tag, which also got the attributes `moved`. */
  ghost predicate Extended(s: State, s': State, roots: seq<nat>, moved: Attributes) {
    && s'.stack == s.stack
    && Kept(s.arena, s'.arena, s.stack, roots, moved)
    && s'.dom == if s.stack == [] then s.dom + roots else s.dom
  }

  ghost predicate Grown(s: State, s': State, roots: seq<nat>, moved: Attributes, built: seq<Tree>) {
    Good(s) && Good(s') && Extended(s, s', roots, moved) && Roots(s'.arena, roots, |s.arena|, built)
  }

  lemma {:induction false} AssignAllAppend(attrs: Attributes, a: Attributes, b: Attributes)
    ensures AssignAll(attrs, a + b) == AssignAll(AssignAll(attrs, a), b)
    decreases |b|
  {
    if b == [] {
      assert a + b == a;
    } else {
      assert (a + b)[..|a + b| - 1] == a + b[..|b| - 1];
      AssignAllAppend(attrs, a, b[..|b| - 1]);
    }
  }

  lemma KeptRoots(a1: seq<Rec>, a2: seq<Rec>, stack: seq<nat>, roots: seq<nat>, moved: Attributes,
                  ids: seq<nat>, lo: nat, built: seq<Tree>)
    requires Kept(a1, a2, stack, roots, moved) && Ordered(a2) && Roots(a1, ids, lo, built)
    requires stack != [] ==> stack[|stack| - 1] < lo
    ensures Roots(a2, ids, lo, built)
  {
    ForestFrame(a1, a2, ids, lo);
  }

  lemma ListsJoin(r1: seq<nat>, r2: seq<nat>, lo: nat, mid: nat, hi: nat)
    requires Asc(r1) && Within(r1, lo, mid) && Asc(r2) && Within(r2, mid, hi) && lo <= mid <= hi
    ensures Asc(r1 + r2) && Within(r1 + r2, lo, hi)
  {
  }

  lemma RootsJoin(arena: seq<Rec>, r1: seq<nat>, r2: seq<nat>, lo: nat, mid: nat, b1: seq<Tree>, b2: seq<Tree>)
    requires Roots(arena, r1, lo, b1) && Within(r1, lo, mid) && Roots(arena, r2, mid, b2) && lo <= mid <= |arena|
    ensures Roots(arena, r1 + r2, lo, b1 + b2)
  {
    ListsJoin(r1, r2, lo, mid, |arena|);
    ForestAppend(arena, r1, r2);
  }

  lemma ExtendedTwice(s: State, s1: State, s2: State, r1: seq<nat>, m1: Attributes, r2: seq<nat>, m2: Attributes)
    requires Extended(s, s1, r1, m1) && Extended(s1, s2, r2, m2)
    ensures Extended(s, s2, r1 + r2, m1 + m2)
  {
    KeptTwice(s.arena, s1.arena, s2.arena, s.stack, r1, m1, r2, m2);
    assert s.dom + (r1 + r2) == s.dom + r1 + r2;
  }

  lemma TopBelow(s: State)
    requires Good(s) && s.stack != []
    ensures s.stack[|s.stack| - 1] < |s.arena|
  {
  }

  lemma GrownTwice(s: State, s1: State, s2: State, r1: seq<nat>, m1: Attributes, b1: seq<Tree>,
                   r2: seq<nat>, m2: Attributes, b2: seq<Tree>)
    requires Grown(s, s1, r1, m1, b1) && Grown(s1, s2, r2, m2, b2)
    ensures Grown(s, s2, r1 + r2, m1 + m2, b1 + b2)
  {
    ExtendedTwice(s, s1, s2, r1, m1, r2, m2);
    if s.stack != [] { TopBelow(s); }
    KeptRoots(s1.arena, s2.arena, s.stack, r2, m2, r1, |s.arena|, b1);
    RootsJoin(s2.arena, r1, r2, |s.arena|, |s1.arena|, b1, b2);
  }

  lemma NewOrdered(arena: seq<Rec>, rec: Rec)
    requires Ordered(arena) && rec.kids == []
    ensures Ordered(arena + [rec])
  {
    forall i | 0 <= i < |arena + [rec]| ensures NodeOk(arena + [rec], i) {
      if i < |arena| { assert NodeOk(arena, i); }
    }
  }

  lemma AddNodeGrown(s: State, e: Element)
    requires Good(s) && Copy(e) == e
    ensures Grown(s, AddNode(s, e), [|s.arena|], [], [Tree(e, [], [])])
  {
    var s' := AddNode(s, e);
    if s.stack == [] {
      NewOrdered(s.arena, Rec(e, [], []));
    } else {
      UnderOrdered(s.arena, s.stack[|s.stack| - 1], Rec(e, [], []));
    }
    OneTree(s'.arena, |s.arena|);
  }

  lemma OneTree(arena: seq<Rec>, n: nat)
    requires Ordered(arena) && n < |arena|
    ensures Listed(arena, arena[n].kids) && Listed(arena, [n])
    ensures Forest(arena, [n]) == [Tree(arena[n].elem, arena[n].attrs, Forest(arena, arena[n].kids))]
  {
    Below(arena, [n]);
    assert [n][..0] == [];
    assert Forest(arena, [n][..0]) == [];
  }

  /** Which tag was opened last does not matter to `Grown`. */
  lemma GrownLast(s: State, s': State, last: Option<nat>, roots: seq<nat>, moved: Attributes, built: seq<Tree>)
    requires Grown(s, s', roots, moved, built) && (last.Some? ==> last.value < |s'.arena|)
    ensures Grown(s, s'.(last := last), roots, moved, built)
  {
  }

  lemma WithAttrsGood(s: State, i: nat, attrs: Attributes)
    requires Good(s) && i < |s.arena|
    ensures Good(WithAttrs(s, i, attrs))
  {
    var s' := WithAttrs(s, i, attrs);
    assert forall j :: 0 <= j < |s.arena| ==> s'.arena[j].kids == s.arena[j].kids && s'.arena[j].elem == s.arena[j].elem;
    forall j | 0 <= j < |s'.arena| ensures NodeOk(s'.arena, j) {
      assert NodeOk(s.arena, j);
    }
  }

  lemma AttrsKept(s: State, attrs: Attributes)
    requires WellFormed(s) && s.stack != []
    ensures Kept(s.arena, WithAttrs(s, Target(s), AssignAll(s.arena[Target(s)].attrs, attrs)).arena, s.stack, [], attrs)
  {
    assert s.arena[Target(s)].kids + [] == s.arena[Target(s)].kids;
  }

  lemma AttrsGrown(s: State, attrs: Attributes)
    requires Good(s) && s.stack != [] && CanonicalAttrs(attrs)
    ensures Grown(s, WriteAll(s, AttrEvents(attrs)), [], attrs, [])
  {
    WriteAttrs(s, attrs);
    WithAttrsGood(s, Target(s), AssignAll(s.arena[Target(s)].attrs, attrs));
    AttrsKept(s, attrs);
  }

  lemma {:induction false} AssignNew(attrs: Attributes, name: string, data: Option<string>)
    requires name != "__proto__" && forall k :: 0 <= k < |attrs| ==> attrs[k].0 != name
    ensures Assign(attrs, name, data) == attrs + [(name, data)]
    decreases |attrs|
  {
    if attrs != [] { AssignNew(attrs[1..], name, data); }
  }

  lemma {:induction false} AssignAllDistinct(attrs: Attributes)
    requires CanonicalAttrs(attrs)
    ensures AssignAll([], attrs) == attrs
    decreases |attrs|
  {
    if attrs != [] {
      var m := |attrs| - 1;
      AssignAllDistinct(attrs[..m]);
      AssignNew(attrs[..m], attrs[m].0, attrs[m].1);
      assert attrs == attrs[..m] + [attrs[m]];
    }
  }

  lemma CloseVoid(s: State, name: string)
    requires Good(s) && IsEmptyTag(name) && Lower(name) == name
    ensures Step(s, Closing(name)) == s
  {
    assert ("/" + name)[1..] == name;
    InnermostIs(s.arena, s.stack, name);
  }

  lemma CloseInnermost(s: State, name: string)
    requires Good(s) && s.stack != [] && s.arena[s.stack[|s.stack| - 1]].elem == Tag(name)
    requires Lower(name) == name && !StartsWith(name, '/')
    ensures Step(s, Closing(name)) == s.(stack := s.stack[..|s.stack| - 1])
  {
    assert ("/" + name)[1..] == name;
    LowerClosing(name);
  }

  lemma LowerClosing(name: string)
    requires Lower(name) == name && !IsEmptyTag(name)
    ensures !IsEmptyTag("/" + name)
  {
    assert Lower("/" + name) == "/" + name;
    assert ("/" + name)[1..] == name;
  }

  lemma WriteFour(s: State, t: Tree)
    requires WellFormed(s) && t.elem.Tag?
    ensures WriteAll(s, FlattenTree(t)) ==
              Step(WriteAll(WriteAll(Step(s, t.elem), AttrEvents(t.attrs)), Flatten(t.kids)), Closing(t.elem.name))
  {
    var a, b, c := [t.elem], AttrEvents(t.attrs), Flatten(t.kids);
    WriteOne(s, t.elem);
    WriteAllAppend(s, a, b);
    WriteAllAppend(s, a + b, c);
    WriteAllAppend(s, a + b + c, [Closing(t.elem.name)]);
    WriteOne(WriteAll(s, a + b + c), Closing(t.elem.name));
  }

  lemma OpenGrown(s: State, t: Tree)
    requires Good(s) && CanonicalTree(t) && IsVoid(t)
    ensures Grown(s, Step(s, t.elem), [|s.arena|], [], [Tree(t.elem, [], [])])
    ensures Step(s, t.elem).last == Some(|s.arena|)
  {
    AddNodeGrown(s, t.elem);
    GrownLast(s, AddNode(s, t.elem), Some(|s.arena|), [|s.arena|], [], [Tree(t.elem, [], [])]);
  }

  lemma WriteVoidTop(s: State, t: Tree)
    requires Good(s) && CanonicalTree(t) && IsVoid(t) && s.stack == []
    ensures Grown(s, WriteAll(s, FlattenTree(t)), [|s.arena|], t.attrs, [Rebuilt(t)])
  {
    var n := |s.arena|;
    WriteFour(s, t);
    OpenGrown(s, t);
    var s1 := Step(s, t.elem);
    WriteAttrs(s1, t.attrs);
    AssignAllDistinct(t.attrs);
    WithAttrsGood(s1, n, t.attrs);
    var s2 := WithAttrs(s1, n, t.attrs);
    OneTree(s2.arena, n);
    CloseVoid(s2, t.elem.name);
  }

  /** Opening a void tag and writing its attributes, inside another tag. */
  lemma VoidInsideGrown(s: State, t: Tree, s1: State, s2: State)
    requires Good(s) && CanonicalTree(t) && IsVoid(t) && s.stack != []
    requires s1 == Step(s, t.elem) && s2 == WriteAll(s1, AttrEvents(t.attrs))
    ensures Grown(s, s2, [|s.arena|], t.attrs, [Tree(t.elem, [], [])])
  {
    var n, built := |s.arena|, [Tree(t.elem, [], [])];
    OpenGrown(s, t);
    AttrsGrown(s1, t.attrs);
    GrownTwice(s, s1, s2, [n], [], built, [], t.attrs, []);
    assert [n] + [] == [n] && [] + t.attrs == t.attrs && built + [] == built;
  }

  lemma WriteVoidInside(s: State, t: Tree)
    requires Good(s) && CanonicalTree(t) && IsVoid(t) && s.stack != []
    ensures Grown(s, WriteAll(s, FlattenTree(t)), [|s.arena|], t.attrs, [Tree(t.elem, [], t.kids)])
  {
    var s1 := Step(s, t.elem);
    var s2 := WriteAll(s1, AttrEvents(t.attrs));
    WriteFour(s, t);
    VoidInsideGrown(s, t, s1, s2);
    CloseVoid(s2, t.elem.name);
  }

  lemma OpenTag(s: State, t: Tree) returns (s1: State)
    requires Good(s) && CanonicalTree(t) && t.elem.Tag? && !IsVoid(t)
    ensures s1 == Step(s, t.elem) && Good(s1)
    ensures s1.stack == s.stack + [|s.arena|] && |s1.arena| == |s.arena| + 1
    ensures s1.arena[|s.arena|] == Rec(t.elem, [], [])
    ensures Kept(s.arena, s1.arena, s.stack, [|s.arena|], [])
    ensures s1.dom == if s.stack == [] then s.dom + [|s.arena|] else s.dom
  {
    AddNodeGrown(s, t.elem);
    s1 := Step(s, t.elem);
  }

  /** A non-void tag with its attributes on it, open and waiting for its children. */
  lemma OpenWithAttrs(s: State, t: Tree) returns (s2: State)
    requires Good(s) && CanonicalTree(t) && t.elem.Tag? && !IsVoid(t)
    ensures Good(s2) && s2 == WriteAll(Step(s, t.elem), AttrEvents(t.attrs))
    ensures s2.stack == s.stack + [|s.arena|] && |s2.arena| == |s.arena| + 1
    ensures s2.arena[|s.arena|] == Rec(t.elem, t.attrs, [])
    ensures Kept(s.arena, s2.arena, s.stack, [|s.arena|], [])
    ensures s2.dom == if s.stack == [] then s.dom + [|s.arena|] else s.dom
  {
    var s1 := OpenTag(s, t);
    WriteAttrs(s1, t.attrs);
    AssignAllDistinct(t.attrs);
    s2 := WithAttrs(s1, |s.arena|, t.attrs);
    WithAttrsGood(s1, |s.arena|, t.attrs);
  }

  /** What becomes of the nodes below `n` while the tag `n` is open, and of `n`. */
  lemma KeptOpen(a: seq<Rec>, a2: seq<Rec>, a3: seq<Rec>, stack: seq<nat>, t: Tree, roots: seq<nat>)
    requires Kept(a, a2, stack, [|a|], []) && |a2| == |a| + 1 && a2[|a|] == Rec(t.elem, t.attrs, [])
    requires Kept(a2, a3, stack + [|a|], roots, VoidAttrs(t.kids))
    ensures Kept(a, a3, stack, [|a|], [])
    ensures a3[|a|] == Rec(t.elem, AssignAll(t.attrs, VoidAttrs(t.kids)), roots)
  {
    assert [] + roots == roots;
  }

  /** Its closing tag pops it, and there it stands with all its children. */
  lemma CloseGrown(s: State, t: Tree, s2: State, s3: State, roots: seq<nat>)
    requires Good(s) && CanonicalTree(t) && t.elem.Tag? && !IsVoid(t)
    requires s2.stack == s.stack + [|s.arena|] && |s2.arena| == |s.arena| + 1
    requires s2.arena[|s.arena|] == Rec(t.elem, t.attrs, [])
    requires Kept(s.arena, s2.arena, s.stack, [|s.arena|], [])
    requires s2.dom == if s.stack == [] then s.dom + [|s.arena|] else s.dom
    requires Grown(s2, s3, roots, VoidAttrs(t.kids), RebuiltAll(t.kids, true))
    ensures Grown(s, Step(s3, Closing(t.elem.name)), [|s.arena|], [], [Rebuilt(t)])
  {
    var n := |s.arena|;
    KeptOpen(s.arena, s2.arena, s3.arena, s.stack, t, roots);
    CloseInnermost(s3, t.elem.name);
    PopGood(s3, s.stack, n);
    OneRoot(s3.arena, n, Rebuilt(t));
  }

  lemma PopGood(s: State, stack: seq<nat>, n: nat)
    requires Good(s) && s.stack == stack + [n]
    ensures s.stack[..|s.stack| - 1] == stack && Good(s.(stack := stack))
  {
  }

  lemma OneRoot(arena: seq<Rec>, n: nat, t: Tree)
    requires Ordered(arena) && n < |arena| && Listed(arena, arena[n].kids)
    requires t == Tree(arena[n].elem, arena[n].attrs, Forest(arena, arena[n].kids))
    ensures Roots(arena, [n], n, [t])
  {
    OneTree(arena, n);
  }

  lemma {:induction false} WriteTree(s: State, t: Tree)
    requires Good(s) && CanonicalTree(t)
    ensures Grown(s, WriteAll(s, FlattenTree(t)), [|s.arena|], Moved(t), [RebuiltAs(t, s.stack != [])])
    decreases t, 0
  {
    if t.elem.Leaf? {
      AddNodeGrown(s, t.elem);
      WriteOne(s, t.elem);
    } else if IsVoid(t) {
      if s.stack == [] { WriteVoidTop(s, t); } else { WriteVoidInside(s, t); }
    } else {
      WriteFour(s, t);
      var s2 := OpenWithAttrs(s, t);
      var roots := WriteForest(s2, t.kids);
      CloseGrown(s, t, s2, WriteAll(s2, Flatten(t.kids)), roots);
    }
  }

  lemma {:induction false} WriteForest(s: State, f: seq<Tree>) returns (roots: seq<nat>)
    requires Good(s) && Canonical(f)
    ensures Grown(s, WriteAll(s, Flatten(f)), roots, VoidAttrs(f), RebuiltAll(f, s.stack != []))
    decreases f, 1
  {
    if f == [] {
      roots := [];
      NothingGrown(s);
    } else {
      var rest, t := f[..|f| - 1], f[|f| - 1];
      var before := WriteForest(s, rest);
      var s1 := WriteAll(s, Flatten(rest));
      WriteTree(s1, t);
      WriteAllAppend(s, Flatten(rest), FlattenTree(t));
      roots := before + [|s1.arena|];
      GrownTwice(s, s1, WriteAll(s1, FlattenTree(t)), before, VoidAttrs(rest), RebuiltAll(rest, s.stack != []),
                 [|s1.arena|], Moved(t), [RebuiltAs(t, s.stack != [])]);
    }
  }

  lemma NothingGrown(s: State)
    requires Good(s)
    ensures Grown(s, s, [], [], [])
  {
    forall i | 0 <= i < |s.arena| ensures s.arena[i].kids + [] == s.arena[i].kids {
    }
    assert s.dom + [] == s.dom;
  }

  // ---- Main results ----

  /** Writing the events of any canonical forest leaves no tag open and rebuilds it, except that the attributes
      of every void tag inside another tag are found on that tag. */
  lemma RebuildsForest(f: seq<Tree>)
    requires Canonical(f)
    ensures var s := WriteAll(EMPTY, Flatten(f));
            s.stack == [] && Listed(s.arena, s.dom) && Dom(s) == RebuiltAll(f, false)
  {
    var roots := WriteForest(EMPTY, f);
    assert EMPTY.dom + roots == roots;
  }

  ghost predicate PlainVoids(f: seq<Tree>) {
    f != [] ==>
      && PlainVoids(f[..|f| - 1])
      && (IsVoid(f[|f| - 1]) ==> f[|f| - 1].attrs == [])
      && PlainVoids(f[|f| - 1].kids)
  }

  /** No void tag inside another tag has attributes. */
  ghost predicate PlainInside(f: seq<Tree>) {
    f != [] ==> PlainInside(f[..|f| - 1]) && PlainVoids(f[|f| - 1].kids)
  }

  lemma TreeIsKept(t: Tree)
    requires CanonicalTree(t)
    requires t.elem.Tag? ==> (RebuiltAll(t.kids, true) == t.kids <==> PlainVoids(t.kids))
    requires t.elem.Tag? && PlainVoids(t.kids) ==> VoidAttrs(t.kids) == []
    ensures Rebuilt(t) == t <==> PlainVoids(t.kids)
    ensures RebuiltAs(t, true) == t <==> PlainVoids(t.kids) && (IsVoid(t) ==> t.attrs == [])
  {
    assert AssignAll(t.attrs, []) == t.attrs;
    if IsVoid(t) { assert RebuiltAll([], true) == []; }
  }

  lemma SameEnds(a: seq<Tree>, x: Tree, b: seq<Tree>, y: Tree)
    requires |a| == |b|
    ensures a + [x] == b + [y] <==> a == b && x == y
  {
    assert (a + [x])[..|a|] == a && (b + [y])[..|b|] == b;
    assert (a + [x])[|a|] == x && (b + [y])[|b|] == y;
  }

  lemma RebuiltSplit(f: seq<Tree>, inside: bool, rest: seq<Tree>, t: Tree)
    requires f != [] && rest == f[..|f| - 1] && t == f[|f| - 1]
    ensures RebuiltAll(f, inside) == f <==> RebuiltAll(rest, inside) == rest && RebuiltAs(t, inside) == t
  {
    var rebuilt := RebuiltAll(rest, inside);
    assert RebuiltAll(f, inside) == rebuilt + [RebuiltAs(t, inside)];
    RebuiltLength(rest, inside);
    SameEnds(rebuilt, RebuiltAs(t, inside), rest, t);
    assert f == rest + [t];
  }

  lemma {:induction false} PlainIsKept(f: seq<Tree>)
    requires Canonical(f)
    ensures RebuiltAll(f, true) == f <==> PlainVoids(f)
    ensures PlainVoids(f) ==> VoidAttrs(f) == []
    decreases f
  {
    if f != [] {
      var rest, t := f[..|f| - 1], f[|f| - 1];
      PlainIsKept(rest);
      if t.elem.Tag? { PlainIsKept(t.kids); }
      TreeIsKept(t);
      RebuiltSplit(f, true, rest, t);
    }
  }

  lemma {:induction false} RebuiltLength(f: seq<Tree>, inside: bool)
    ensures |RebuiltAll(f, inside)| == |f|
    decreases |f|
  {
    if f != [] { RebuiltLength(f[..|f| - 1], inside); }
  }

  lemma {:induction false} PlainTop(f: seq<Tree>)
    requires Canonical(f)
    ensures RebuiltAll(f, false) == f <==> PlainInside(f)
    decreases |f|
  {
    if f != [] {
      var rest, t := f[..|f| - 1], f[|f| - 1];
      PlainTop(rest);
      if t.elem.Tag? { PlainIsKept(t.kids); }
      TreeIsKept(t);
      RebuiltSplit(f, false, rest, t);
    }
  }

  /** The round trip succeeds exactly when no void tag inside another tag has attributes. */
  lemma RoundTrip(f: seq<Tree>)
    requires Canonical(f)
    ensures var s := WriteAll(EMPTY, Flatten(f));
            s.stack == [] && Listed(s.arena, s.dom) && (Dom(s) == f <==> PlainInside(f))
  {
    RebuildsForest(f);
    PlainTop(f);
  }

  /** An image in a paragraph loses its source to the paragraph. */
  lemma ImageInParagraph()
    ensures var img := Tree(Tag("img"), [("src", Some("a"))], []);
            var f := [Tree(Tag("p"), [], [img])];
            var s := WriteAll(EMPTY, Flatten(f));
            && Canonical(f) && Listed(s.arena, s.dom)
            && Dom(s) == [Tree(Tag("p"), [("src", Some("a"))], [Tree(Tag("img"), [], [])])] && Dom(s) != f
  {
    var src := [("src", Some("a"))];
    var img := Tree(Tag("img"), src, []);
    var p := Tree(Tag("p"), [], [img]);
    assert Lower("src") == "src" && Lower("img") == "img" && Lower("p") == "p";
    assert IsVoid(img);
    assert !IsVoid(p) by { assert |Lower("p")| == 1; }
    assert [img][..0] == [] && Canonical([img][..0]) && Canonical([img]);
    assert [p][..0] == [] && Canonical([p][..0]);
    assert VoidAttrs([img][..0]) == [] && VoidAttrs([img]) == src;
    assert AssignAll([], src[..0]) == [] && AssignAll([], src) == src;
    assert RebuiltAll([img][..0], true) == [] && RebuiltAll([img], true) == [Tree(Tag("img"), [], [])];
    assert RebuiltAll([p][..0], false) == [];
    assert Rebuilt(p) == Tree(Tag("p"), src, [Tree(Tag("img"), [], [])]);
    assert RebuiltAll([p], false) == [Rebuilt(p)];
    RebuildsForest([p]);
  }
}
