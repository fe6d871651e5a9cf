// What the builder makes of event streams: the DOM as a forest of values.
module HtmlForests {
  import opened Wrappers
  import opened HtmlBuilding

  datatype Tree = Tree(elem: Element, attrs: Attributes, kids: seq<Tree>)

  // ---- Reading the DOM off the nodes ----

  ghost predicate Asc(ids: seq<nat>) {
    forall j, k :: 0 <= j < k < |ids| ==> ids[j] < ids[k]
  }

  ghost predicate NodeOk(arena: seq<Rec>, i: nat)
    requires i < |arena|
  {
    Within(arena[i].kids, i + 1, |arena|) && Asc(arena[i].kids)
  }

  ghost predicate Ordered(arena: seq<Rec>) {
    forall i {:trigger NodeOk(arena, i)} :: 0 <= i < |arena| ==> NodeOk(arena, i)
  }

  function First(arena: seq<Rec>, ids: seq<nat>): nat {
    if ids == [] then |arena| else ids[0]
  }

  ghost predicate Listed(arena: seq<Rec>, ids: seq<nat>) {
    Ordered(arena) && Asc(ids) && Within(ids, 0, |arena|)
  }

  lemma Below(arena: seq<Rec>, ids: seq<nat>)
    requires Listed(arena, ids) && ids != []
    ensures Listed(arena, ids[..|ids| - 1]) && Listed(arena, arena[ids[|ids| - 1]].kids)
    ensures First(arena, ids) <= ids[|ids| - 1] < First(arena, arena[ids[|ids| - 1]].kids)
    ensures |ids| > 1 ==> First(arena, ids[..|ids| - 1]) == First(arena, ids)
  {
    assert NodeOk(arena, ids[|ids| - 1]);
  }

  ghost function Forest(arena: seq<Rec>, ids: seq<nat>): seq<Tree>
    requires Listed(arena, ids)
    decreases |arena| - First(arena, ids), |ids|
  {
    if ids == [] then []
    else
      var rest, r := ids[..|ids| - 1], arena[ids[|ids| - 1]];
      Below(arena, ids);
      Forest(arena, rest) + [Tree(r.elem, r.attrs, Forest(arena, r.kids))]
  }

  ghost function Dom(s: State): seq<Tree>
    requires Listed(s.arena, s.dom)
  {
    Forest(s.arena, s.dom)
  }

  /** Node numbers in document order. */
  ghost function Pre(arena: seq<Rec>, ids: seq<nat>): seq<nat>
    requires Listed(arena, ids)
    decreases |arena| - First(arena, ids), |ids|
  {
    if ids == [] then []
    else
      var last := ids[|ids| - 1];
      Below(arena, ids);
      Pre(arena, ids[..|ids| - 1]) + [last] + Pre(arena, arena[last].kids)
  }

  ghost function RightSpine(arena: seq<Rec>, ids: seq<nat>): seq<nat>
    requires Listed(arena, ids)
    decreases |arena| - First(arena, ids)
  {
    if ids == [] then []
    else
      var last := ids[|ids| - 1];
      Below(arena, ids);
      [last] + RightSpine(arena, arena[last].kids)
  }

  function Preorder(f: seq<Tree>): seq<Element> {
    if f == [] then []
    else Preorder(f[..|f| - 1]) + [f[|f| - 1].elem] + Preorder(f[|f| - 1].kids)
  }

  function Elems(arena: seq<Rec>, ids: seq<nat>): (es: seq<Element>)
    requires Within(ids, 0, |arena|)
    ensures |es| == |ids| && forall k :: 0 <= k < |es| ==> es[k] == arena[ids[k]].elem
  {
    seq(|ids|, k requires 0 <= k < |ids| => arena[ids[k]].elem)
  }

  lemma {:induction false} PreAbove(arena: seq<Rec>, ids: seq<nat>, lo: nat)
    requires Listed(arena, ids) && Within(ids, lo, |arena|)
    ensures Within(Pre(arena, ids), lo, |arena|)
    decreases |arena| - First(arena, ids), |ids|
  {
    if ids != [] {
      Below(arena, ids);
      var last := ids[|ids| - 1];
      assert NodeOk(arena, last);
      PreAbove(arena, ids[..|ids| - 1], lo);
      PreAbove(arena, arena[last].kids, lo);
    }
  }

  lemma {:induction false} PreorderIsPre(arena: seq<Rec>, ids: seq<nat>)
    requires Listed(arena, ids)
    ensures Within(Pre(arena, ids), 0, |arena|)
    ensures Preorder(Forest(arena, ids)) == Elems(arena, Pre(arena, ids))
    decreases |arena| - First(arena, ids), |ids|
  {
    PreAbove(arena, ids, 0);
    if ids != [] {
      var rest, last := ids[..|ids| - 1], ids[|ids| - 1];
      var kids := arena[last].kids;
      Below(arena, ids);
      PreorderIsPre(arena, rest);
      PreorderIsPre(arena, kids);
      PreorderLast(Forest(arena, rest), Tree(arena[last].elem, arena[last].attrs, Forest(arena, kids)));
      ElemsJoin(arena, Pre(arena, rest), last, Pre(arena, kids));
    }
  }

  lemma PreorderLast(f: seq<Tree>, t: Tree)
    ensures Preorder(f + [t]) == Preorder(f) + [t.elem] + Preorder(t.kids)
  {
    assert (f + [t])[..|f|] == f;
  }

  lemma ElemsJoin(arena: seq<Rec>, a: seq<nat>, m: nat, b: seq<nat>)
    requires Within(a + [m] + b, 0, |arena|) && Within(a, 0, |arena|) && m < |arena| && Within(b, 0, |arena|)
    ensures Elems(arena, a + [m] + b) == Elems(arena, a) + [arena[m].elem] + Elems(arena, b)
  {
  }

  /** Two arenas agree on the nodes below `ids`. */
  ghost predicate SameKids(arena: seq<Rec>, arena': seq<Rec>, ids: seq<nat>) {
    forall k :: 0 <= k < |ids| ==> ids[k] < |arena| && ids[k] < |arena'| && arena'[ids[k]].kids == arena[ids[k]].kids
  }

  lemma {:induction false} PreFrame(arena: seq<Rec>, arena': seq<Rec>, ids: seq<nat>)
    requires Listed(arena, ids) && Listed(arena', ids) && |arena| <= |arena'|
    requires SameKids(arena, arena', Pre(arena, ids))
    ensures Pre(arena', ids) == Pre(arena, ids) && RightSpine(arena', ids) == RightSpine(arena, ids)
    decreases |arena| - First(arena, ids), |ids|
  {
    if ids != [] {
      Below(arena, ids);
      Below(arena', ids);
      var rest, last := ids[..|ids| - 1], ids[|ids| - 1];
      var p, a, b := Pre(arena, ids), Pre(arena, rest), Pre(arena, arena[last].kids);
      assert p == a + [last] + b;
      assert p[|a|] == last;
      assert SameKids(arena, arena', a) by { assert forall k :: 0 <= k < |a| ==> a[k] == p[k]; }
      assert SameKids(arena, arena', b) by { assert forall k :: 0 <= k < |b| ==> b[k] == p[|a| + 1 + k]; }
      PreFrame(arena, arena', rest);
      PreFrame(arena, arena', arena[last].kids);
    }
  }

  lemma {:induction false} ForestFrame(arena: seq<Rec>, arena': seq<Rec>, ids: seq<nat>, lo: nat)
    requires Listed(arena, ids) && Listed(arena', ids) && |arena| <= |arena'|
    requires Within(ids, lo, |arena|) && forall i :: lo <= i < |arena| ==> arena'[i] == arena[i]
    ensures Forest(arena', ids) == Forest(arena, ids)
    decreases |arena| - First(arena, ids), |ids|
  {
    if ids != [] {
      Below(arena, ids);
      Below(arena', ids);
      assert NodeOk(arena, ids[|ids| - 1]);
      ForestFrame(arena, arena', ids[..|ids| - 1], lo);
      ForestFrame(arena, arena', arena[ids[|ids| - 1]].kids, lo);
    }
  }

  lemma {:induction false} ForestAppend(arena: seq<Rec>, a: seq<nat>, b: seq<nat>)
    requires Listed(arena, a) && Listed(arena, b) && Listed(arena, a + b)
    ensures Forest(arena, a + b) == Forest(arena, a) + Forest(arena, b)
    decreases |b|
  {
    if b == [] {
      assert a + b == a;
    } else {
      assert (a + b)[..|a + b| - 1] == a + b[..|b| - 1];
      ForestAppend(arena, a, b[..|b| - 1]);
    }
  }

  // ---- Arbitrary streams ----

  predicate IsOpening(e: Element) { e.Tag? && !StartsWith(e.name, '/') }

  predicate HasOpening(es: seq<Element>) {
    exists k :: 0 <= k < |es| && IsOpening(es[k])
  }

  /** What becomes a node: everything but closing tags and attributes after the first opening tag. */
  predicate Creates(es: seq<Element>, e: Element) {
    match e
    case Tag(name) => !StartsWith(name, '/')
    case Attr(_, _) => !HasOpening(es)
    case Leaf(_, _) => true
  }

  function Created(es: seq<Element>): seq<Element> {
    if es == [] then []
    else
      var before, e := es[..|es| - 1], es[|es| - 1];
      Created(before) + if Creates(before, e) then [Copy(e)] else []
  }

  function Upto(n: nat): (ids: seq<nat>)
    ensures |ids| == n && forall k :: 0 <= k < n ==> ids[k] == k
  {
    seq(n, k requires 0 <= k < n => k)
  }

  ghost predicate OpenTags(s: State) {
    && Within(s.stack, 0, |s.arena|)
    && forall k :: 0 <= k < |s.stack| ==> s.arena[s.stack[k]].elem.Tag? && !IsEmptyTag(s.arena[s.stack[k]].elem.name)
  }

  ghost predicate Tidy(s: State) {
    && WellFormed(s) && Listed(s.arena, s.dom) && OpenTags(s)
    && Pre(s.arena, s.dom) == Upto(|s.arena|)
    && s.stack <= RightSpine(s.arena, s.dom)
  }

  lemma {:induction false} SpineInPre(arena: seq<Rec>, ids: seq<nat>)
    requires Listed(arena, ids)
    ensures forall k :: 0 <= k < |RightSpine(arena, ids)| ==> RightSpine(arena, ids)[k] in Pre(arena, ids)
    decreases |arena| - First(arena, ids)
  {
    if ids != [] {
      Below(arena, ids);
      SpineInPre(arena, arena[ids[|ids| - 1]].kids);
    }
  }

  /** `arena` with the new node `rec` as last child of `p`. */
  function Under(arena: seq<Rec>, p: nat, rec: Rec): seq<Rec>
    requires p < |arena|
  {
    arena[p := arena[p].(kids := arena[p].kids + [|arena|])] + [rec]
  }

  lemma UnderOrdered(arena: seq<Rec>, p: nat, rec: Rec)
    requires Ordered(arena) && p < |arena| && rec.kids == []
    ensures Ordered(Under(arena, p, rec))
  {
    var arena' := Under(arena, p, rec);
    forall i | 0 <= i < |arena'| ensures NodeOk(arena', i) {
      if i < |arena| { assert NodeOk(arena, i); }
    }
  }

  ghost predicate NoDup(ids: seq<nat>) {
    forall j, k :: 0 <= j < k < |ids| ==> ids[j] != ids[k]
  }

  lemma NoDupParts(a: seq<nat>, m: nat, b: seq<nat>)
    requires NoDup(a + [m] + b)
    ensures NoDup(b) && m !in a && m !in b && forall x: nat :: x in b ==> x !in a
  {
    var all := a + [m] + b;
    assert forall k :: 0 <= k < |a| ==> all[k] == a[k];
    assert all[|a|] == m;
    assert forall k :: 0 <= k < |b| ==> all[|a| + 1 + k] == b[k];
  }

  lemma OthersKeepKids(arena: seq<Rec>, p: nat, rec: Rec, ids: seq<nat>)
    requires p < |arena| && Within(ids, 0, |arena|) && p !in ids
    ensures SameKids(arena, Under(arena, p, rec), ids)
  {
  }

  lemma OnlyNew(arena: seq<Rec>, kids: seq<nat>, n: nat)
    requires Listed(arena, kids) && Listed(arena, kids + [n]) && n < |arena| && arena[n].kids == []
    ensures Pre(arena, kids + [n]) == Pre(arena, kids) + [n] && RightSpine(arena, kids + [n]) == [n]
  {
    assert (kids + [n])[..|kids|] == kids;
  }

  /** A new node under one that is not listed before `ids` ends leaves their order alone. */
  lemma ElsewhereUnder(arena: seq<Rec>, ids: seq<nat>, p: nat, rec: Rec, arena': seq<Rec>)
    requires Listed(arena, ids) && p < |arena| && arena' == Under(arena, p, rec) && Ordered(arena')
    requires p !in Pre(arena, ids)
    ensures Pre(arena', ids) == Pre(arena, ids) && RightSpine(arena', ids) == RightSpine(arena, ids)
  {
    PreAbove(arena, ids, 0);
    OthersKeepKids(arena, p, rec, Pre(arena, ids));
    PreFrame(arena, arena', ids);
  }

  ghost predicate Appended(arena: seq<Rec>, arena': seq<Rec>, ids: seq<nat>, ids': seq<nat>, spine: seq<nat>) {
    && Listed(arena, ids) && Listed(arena', ids')
    && Pre(arena', ids') == Pre(arena, ids) + [|arena|] && RightSpine(arena', ids') == spine
  }

  /** The order of a list follows that of the children of its last node. */
  lemma AppendedAbove(arena: seq<Rec>, arena': seq<Rec>, rest: seq<nat>, last: nat, kids': seq<nat>, spine: seq<nat>)
    requires Listed(arena, rest + [last]) && Listed(arena', rest + [last]) && Listed(arena, rest) && Listed(arena', rest)
    requires last < |arena| && last < |arena'|
    requires kids' == arena'[last].kids
    requires Pre(arena', rest) == Pre(arena, rest)
    requires Appended(arena, arena', arena[last].kids, kids', spine)
    ensures Appended(arena, arena', rest + [last], rest + [last], [last] + spine)
  {
    assert (rest + [last])[..|rest|] == rest;
  }

  /** `ids` is `rest` and `last`, under which the stack goes on. */
  ghost predicate SpineSplit(arena: seq<Rec>, ids: seq<nat>, rest: seq<nat>, last: nat, kids: seq<nat>, stack: seq<nat>)
    requires Listed(arena, ids) && stack != []
  {
    && ids == rest + [last] && stack[0] == last < |arena| && kids == arena[last].kids
    && Listed(arena, rest) && Listed(arena, kids)
    && NoDup(Pre(arena, kids)) && stack[1..] <= RightSpine(arena, kids)
    && stack[|stack| - 1] !in Pre(arena, rest)
    && (|stack| == 1 ==> last !in Pre(arena, kids))
    && (|stack| > 1 ==> stack[|stack| - 1] != last)
  }

  /** A node on the spine below `last` is listed below `last`, and nowhere before. */
  lemma LastOnSpine(before: seq<nat>, last: nat, below: seq<nat>, spine: seq<nat>, stack: seq<nat>)
    requires NoDup(before + [last] + below) && forall k :: 0 <= k < |spine| ==> spine[k] in below
    requires stack != [] && stack[0] == last && stack[1..] <= spine
    ensures NoDup(below) && stack[|stack| - 1] !in before
    ensures if |stack| == 1 then last !in below else stack[|stack| - 1] != last
  {
    NoDupParts(before, last, below);
    if |stack| > 1 { assert stack[|stack| - 1] == spine[|stack| - 2]; }
  }

  lemma SpineParts(arena: seq<Rec>, ids: seq<nat>, rest: seq<nat>, last: nat, kids: seq<nat>, stack: seq<nat>)
    requires Listed(arena, ids) && stack != [] && stack <= RightSpine(arena, ids) && NoDup(Pre(arena, ids))
    requires rest == ids[..|ids| - 1] && last == ids[|ids| - 1] && last < |arena| && kids == arena[last].kids
    ensures SpineSplit(arena, ids, rest, last, kids, stack)
  {
    Below(arena, ids);
    SpineInPre(arena, kids);
    assert RightSpine(arena, ids) == [last] + RightSpine(arena, kids);
    assert stack[1..] <= RightSpine(arena, kids);
    LastOnSpine(Pre(arena, rest), last, Pre(arena, kids), RightSpine(arena, kids), stack);
  }

  lemma KidsGrown(arena: seq<Rec>, last: nat, kids: seq<nat>, rec: Rec, arena': seq<Rec>)
    requires Listed(arena, kids) && last < |arena| && kids == arena[last].kids && rec.kids == []
    requires arena' == Under(arena, last, rec) && Ordered(arena')
    requires last !in Pre(arena, kids)
    ensures arena'[last].kids == kids + [|arena|]
    ensures Appended(arena, arena', kids, kids + [|arena|], [|arena|])
  {
    ElsewhereUnder(arena, kids, last, rec, arena');
    assert NodeOk(arena', last);
    OnlyNew(arena', kids, |arena|);
  }

  lemma StillListed(arena: seq<Rec>, ids: seq<nat>, arena': seq<Rec>)
    requires Listed(arena, ids) && Ordered(arena') && |arena| <= |arena'|
    ensures Listed(arena', ids)
  {
  }

  lemma AppendUnderLast(arena: seq<Rec>, rest: seq<nat>, last: nat, kids: seq<nat>, rec: Rec, arena': seq<Rec>)
    requires Listed(arena, rest + [last]) && Listed(arena, rest) && Listed(arena, kids)
    requires last < |arena| && kids == arena[last].kids && rec.kids == []
    requires arena' == Under(arena, last, rec) && Ordered(arena')
    requires last !in Pre(arena, rest) && last !in Pre(arena, kids)
    ensures Appended(arena, arena', rest + [last], rest + [last], [last, |arena|])
  {
    ElsewhereUnder(arena, rest, last, rec, arena');
    KidsGrown(arena, last, kids, rec, arena');
    StillListed(arena, rest, arena');
    StillListed(arena, rest + [last], arena');
    AppendedAbove(arena, arena', rest, last, kids + [|arena|], [|arena|]);
  }

  /** Appending under a node of the right spine appends to the document order. */
  lemma {:induction false} AppendUnder(arena: seq<Rec>, ids: seq<nat>, stack: seq<nat>, rec: Rec, arena': seq<Rec>)
    requires Listed(arena, ids) && stack != [] && stack <= RightSpine(arena, ids) && rec.kids == []
    requires stack[|stack| - 1] < |arena| && arena' == Under(arena, stack[|stack| - 1], rec)
    requires NoDup(Pre(arena, ids)) && Ordered(arena')
    ensures Appended(arena, arena', ids, ids, stack + [|arena|])
    decreases |stack|
  {
    var rest, last := ids[..|ids| - 1], ids[|ids| - 1];
    var kids := arena[last].kids;
    SpineParts(arena, ids, rest, last, kids, stack);
    if |stack| == 1 {
      AppendUnderLast(arena, rest, last, kids, rec, arena');
      assert stack + [|arena|] == [last, |arena|];
    } else {
      ElsewhereUnder(arena, rest, stack[|stack| - 1], rec, arena');
      AppendUnder(arena, kids, stack[1..], rec, arena');
      AppendedAbove(arena, arena', rest, last, kids, stack[1..] + [|arena|]);
      assert stack + [|arena|] == [last] + (stack[1..] + [|arena|]);
    }
  }

  lemma AppendTop(arena: seq<Rec>, ids: seq<nat>, rec: Rec, arena': seq<Rec>)
    requires Listed(arena, ids) && rec.kids == [] && arena' == arena + [rec]
    ensures Appended(arena, arena', ids, ids + [|arena|], [|arena|])
  {
    PreAbove(arena, ids, 0);
    forall i | 0 <= i < |arena'| ensures NodeOk(arena', i) {
      if i < |arena| { assert NodeOk(arena, i); }
    }
    PreFrame(arena, arena', ids);
    OnlyNew(arena', ids, |arena|);
  }

  lemma UptoDistinct(n: nat)
    ensures NoDup(Upto(n)) && Upto(n) + [n] == Upto(n + 1)
  {
  }

  lemma AddNodeOrder(s: State, e: Element, s': State)
    requires WellFormed(s) && Listed(s.arena, s.dom) && s.stack <= RightSpine(s.arena, s.dom)
    requires NoDup(Pre(s.arena, s.dom)) && s' == AddNode(s, e)
    ensures Appended(s.arena, s'.arena, s.dom, s'.dom, s.stack + [|s.arena|])
  {
    var rec := Rec(Copy(e), [], []);
    if s.stack == [] {
      AppendTop(s.arena, s.dom, rec, s'.arena);
      assert s.stack + [|s.arena|] == [|s.arena|];
    } else {
      UnderOrdered(s.arena, s.stack[|s.stack| - 1], rec);
      AppendUnder(s.arena, s.dom, s.stack, rec, s'.arena);
    }
  }

  lemma AddNodeTidy(s: State, e: Element)
    requires Tidy(s)
    ensures var s' := AddNode(s, e);
            && WellFormed(s') && Listed(s'.arena, s'.dom) && OpenTags(s')
            && Pre(s'.arena, s'.dom) == Upto(|s'.arena|)
            && RightSpine(s'.arena, s'.dom) == s.stack + [|s.arena|]
  {
    UptoDistinct(|s.arena|);
    AddNodeOrder(s, e, AddNode(s, e));
  }

  lemma AddAttrOrdered(s: State, i: nat, name: string, data: Option<string>)
    requires WellFormed(s) && Ordered(s.arena) && i < |s.arena|
    ensures Ordered(AddAttr(s, i, name, data).arena)
  {
    var arena' := AddAttr(s, i, name, data).arena;
    forall j | 0 <= j < |arena'| ensures NodeOk(arena', j) {
      assert NodeOk(s.arena, j);
    }
  }

  lemma AddAttrTidy(s: State, i: nat, name: string, data: Option<string>)
    requires Tidy(s) && i < |s.arena|
    ensures Tidy(AddAttr(s, i, name, data))
  {
    var s' := AddAttr(s, i, name, data);
    AddAttrOrdered(s, i, name, data);
    PreAbove(s.arena, s.dom, 0);
    PreFrame(s.arena, s'.arena, s.dom);
  }

  lemma {:induction false} InnermostIs(arena: seq<Rec>, stack: seq<nat>, base: string)
    requires Within(stack, 0, |arena|)
    ensures var k := Innermost(arena, stack, base);
            && (k >= 0 ==> arena[stack[k]].elem == Tag(base))
            && forall j :: k < j < |stack| ==> arena[stack[j]].elem != Tag(base)
    decreases |stack|
  {
    if stack != [] { InnermostIs(arena, stack[..|stack| - 1], base); }
  }

  lemma LeafTidy(s: State, e: Element)
    requires Tidy(s)
    ensures Tidy(AddNode(s, e))
  {
    AddNodeTidy(s, e);
  }

  lemma OpeningTidy(s: State, name: string)
    requires Tidy(s) && !StartsWith(name, '/')
    ensures Tidy(Step(s, Tag(name)))
  {
    AddNodeTidy(s, Tag(name));
  }

  lemma ClosingTidy(s: State, k: nat)
    requires Tidy(s) && k <= |s.stack|
    ensures Tidy(s.(stack := s.stack[..k]))
  {
  }

  lemma StepTidy(s: State, e: Element)
    requires Tidy(s)
    ensures Tidy(Step(s, e))
  {
    match e
    case Tag(name) =>
      if !StartsWith(name, '/') {
        OpeningTidy(s, name);
      } else if s.stack != [] && !IsEmptyTag(name) && Innermost(s.arena, s.stack, Lower(name[1..])) >= 0 {
        ClosingTidy(s, Innermost(s.arena, s.stack, Lower(name[1..])));
      }
    case Attr(name, data) =>
      if s.stack != [] {
        AddAttrTidy(s, s.stack[|s.stack| - 1], name, data);
      } else if s.last.Some? {
        AddAttrTidy(s, s.last.value, name, data);
      } else {
        LeafTidy(s, e);
      }
    case Leaf(_, _) => LeafTidy(s, e);
  }

  /** The nodes are the copies of the creating events, and there is a last tag once one has been opened. */
  ghost predicate Reflects(s: State, es: seq<Element>) {
    && |s.arena| == |Created(es)|
    && (forall i :: 0 <= i < |s.arena| ==> s.arena[i].elem == Created(es)[i])
    && (s.last.Some? <==> HasOpening(es))
    && (s.stack != [] ==> s.last.Some?)
  }

  lemma StepReflects(s: State, es: seq<Element>, e: Element)
    requires WellFormed(s) && Reflects(s, es)
    ensures Reflects(Step(s, e), es + [e])
  {
    assert (es + [e])[..|es|] == es;
    assert HasOpening(es + [e]) <==> HasOpening(es) || IsOpening(e) by {
      if HasOpening(es) {
        var k :| 0 <= k < |es| && IsOpening(es[k]);
        assert IsOpening((es + [e])[k]);
      }
      if IsOpening(e) { assert IsOpening((es + [e])[|es|]); }
    }
  }

  lemma {:induction false} StreamTidy(es: seq<Element>)
    ensures Tidy(WriteAll(EMPTY, es))
    decreases |es|
  {
    if es != [] {
      StreamTidy(es[..|es| - 1]);
      StepTidy(WriteAll(EMPTY, es[..|es| - 1]), es[|es| - 1]);
    }
  }

  lemma {:induction false} StreamReflects(es: seq<Element>)
    ensures Reflects(WriteAll(EMPTY, es), es)
    decreases |es|
  {
    if es != [] {
      var before, e := es[..|es| - 1], es[|es| - 1];
      StreamReflects(before);
      StepReflects(WriteAll(EMPTY, before), before, e);
      assert es == before + [e];
    }
  }

  /** For every stream, malformed or not: document order is the order of the events that create nodes, each copied
      into one, and the open tags are a prefix of the DOM's rightmost spine. */
  lemma AnyStream(es: seq<Element>)
    ensures var s := WriteAll(EMPTY, es);
            && Listed(s.arena, s.dom)
            && Preorder(Dom(s)) == Created(es)
            && s.stack <= RightSpine(s.arena, s.dom)
            && forall k :: 0 <= k < |s.stack| ==> s.arena[s.stack[k]].elem.Tag? && !IsEmptyTag(s.arena[s.stack[k]].elem.name)
  {
    StreamTidy(es);
    StreamReflects(es);
    var s := WriteAll(EMPTY, es);
    PreorderIsPre(s.arena, s.dom);
    assert Elems(s.arena, Upto(|s.arena|)) == Created(es);
  }

  /** A closing tag never touches the DOM; it pops exactly through the innermost open tag of its name, and
      if it is void or no tag of its name is open it changes nothing. */
  lemma ClosingPops(s: State, name: string)
    requires Tidy(s) && StartsWith(name, '/')
    ensures var s', base := Step(s, Tag(name)), Lower(name[1..]);
            && s' == s.(stack := s'.stack) && s'.stack <= s.stack
            && (IsEmptyTag(name) || (forall k :: 0 <= k < |s.stack| ==> s.arena[s.stack[k]].elem != Tag(base)) ==> s' == s)
            && (!IsEmptyTag(name) && s' != s ==>
                  && s.arena[s.stack[|s'.stack|]].elem == Tag(base)
                  && forall k :: |s'.stack| < k < |s.stack| ==> s.arena[s.stack[k]].elem != Tag(base))
            && (!IsEmptyTag(name) && s' == s ==>
                  forall k :: 0 <= k < |s.stack| ==> s.arena[s.stack[k]].elem != Tag(base))
  {
    InnermostIs(s.arena, s.stack, Lower(name[1..]));
  }
}
