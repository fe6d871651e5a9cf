// The DOM builder of the vendored HTML parser (htmlparser.js, HtmlBuilder) with its default options.
module HtmlBuilding {
  import opened Wrappers

  datatype Mode = Text | Comment | CData | Doctype

  /** What the tokenizer writes; a closing tag is a `Tag` whose name starts with '/'. */
  datatype Element =
    | Tag(name: string)
    | Attr(name: string, data: Option<string>)
    | Leaf(mode: Mode, text: string)

  /** A JavaScript object used as a dictionary, in insertion order. */
  type Attributes = seq<(string, Option<string>)>

  const EMPTY_TAGS := {"area", "base", "basefont", "br", "col", "frame", "hr", "img", "input", "isindex", "link", "meta",
                       "param", "embed", "?xml"}

  /** Looked up in a plain object, names found on its prototype count as present too. */
  const PROTOTYPE_NAMES := {"constructor", "__proto__"}

  function LowerChar(c: char): char {
    if 'A' <= c <= 'Z' then (c as int + 32) as char else c
  }

  function Lower(s: string): (r: string)
    ensures |r| == |s| && forall i :: 0 <= i < |s| ==> r[i] == LowerChar(s[i])
  {
    seq(|s|, i requires 0 <= i < |s| => LowerChar(s[i]))
  }

  predicate StartsWith(s: string, c: char) { s != "" && s[0] == c }

  predicate IsEmptyTag(name: string) {
    var lower := Lower(name);
    || StartsWith(lower, '?')
    || (var base := if StartsWith(lower, '/') then lower[1..] else lower;
        base in EMPTY_TAGS || base in PROTOTYPE_NAMES)
  }

  /** `_copyElement`. */
  function Copy(e: Element): Element {
    match e
    case Tag(name) => Tag(Lower(name))
    case Attr(name, data) => Attr(Lower(name), data)
    case Leaf(_, _) => e
  }

  /** Assigning a property: an existing one keeps its place, and `__proto__` never becomes one. */
  function Assign(attrs: Attributes, name: string, data: Option<string>): Attributes {
    if name == "__proto__" then attrs
    else if attrs == [] then [(name, data)]
    else if attrs[0].0 == name then [(name, data)] + attrs[1..]
    else [attrs[0]] + Assign(attrs[1..], name, data)
  }

  // ---- The builder's state, nodes numbered in the order of their creation ----

  datatype Rec = Rec(elem: Element, attrs: Attributes, kids: seq<nat>)

  datatype State = State(arena: seq<Rec>, dom: seq<nat>, stack: seq<nat>, last: Option<nat>)

  predicate Within(ids: seq<nat>, lo: nat, hi: nat) {
    forall k :: 0 <= k < |ids| ==> lo <= ids[k] < hi
  }

  predicate WellFormed(s: State) {
    && Within(s.dom, 0, |s.arena|) && Within(s.stack, 0, |s.arena|)
    && (forall k :: 0 <= k < |s.stack| ==> s.arena[s.stack[k]].elem.Tag?)
    && (s.last.Some? ==> s.last.value < |s.arena|)
  }

  const EMPTY := State([], [], [], None)

  /** A copy of `e` becomes the last child of the innermost open tag, or the last top-level node. */
  function AddNode(s: State, e: Element): (s': State)
    requires WellFormed(s)
    ensures WellFormed(s') && |s'.arena| == |s.arena| + 1
  {
    var n := |s.arena|;
    if s.stack == [] then s.(arena := s.arena + [Rec(Copy(e), [], [])], dom := s.dom + [n])
    else
      var p := s.stack[|s.stack| - 1];
      s.(arena := s.arena[p := s.arena[p].(kids := s.arena[p].kids + [n])] + [Rec(Copy(e), [], [])])
  }

  function AddAttr(s: State, i: nat, name: string, data: Option<string>): (s': State)
    requires WellFormed(s) && i < |s.arena|
    ensures WellFormed(s')
  {
    s.(arena := s.arena[i := s.arena[i].(attrs := Assign(s.arena[i].attrs, Lower(name), data))])
  }

  /** Position in the stack of the innermost open tag of this name, or -1. */
  function Innermost(arena: seq<Rec>, stack: seq<nat>, base: string): (k: int)
    requires Within(stack, 0, |arena|)
    ensures -1 <= k < |stack|
  {
    if stack == [] then -1
    else if arena[stack[|stack| - 1]].elem == Tag(base) then |stack| - 1
    else Innermost(arena, stack[..|stack| - 1], base)
  }

  function Close(s: State, base: string): State
    requires WellFormed(s)
  {
    var k := Innermost(s.arena, s.stack, base);
    if k < 0 then s else s.(stack := s.stack[..k])
  }

  /** One event of the stream. */
  function Step(s: State, e: Element): (s': State)
    requires WellFormed(s)
    ensures WellFormed(s')
  {
    match e
    case Tag(name) =>
      if StartsWith(name, '/') then
        if s.stack == [] || IsEmptyTag(name) then s else Close(s, Lower(name[1..]))
      else
        var n := |s.arena|;
        AddNode(s, e).(last := Some(n), stack := if IsEmptyTag(Lower(name)) then s.stack else s.stack + [n])
    case Attr(name, data) =>
      if s.stack != [] then AddAttr(s, s.stack[|s.stack| - 1], name, data)
      else if s.last.Some? then AddAttr(s, s.last.value, name, data)
      else AddNode(s, e)
    case Leaf(_, _) => AddNode(s, e)
  }

  function WriteAll(s: State, es: seq<Element>): (s': State)
    requires WellFormed(s)
    ensures WellFormed(s')
  {
    if es == [] then s else Step(WriteAll(s, es[..|es| - 1]), es[|es| - 1])
  }

  // ---- The program ----

  class Node {
    ghost const id: nat
    const elem: Element
    var attributes: Attributes
    var children: seq<Node>

    constructor (elem: Element, ghost id: nat)
      ensures this.elem == elem && this.id == id && attributes == [] && children == []
    {
      this.elem, this.id, attributes, children := elem, id, [], [];
    }
  }

  ghost function IdsOf(ns: seq<Node>): (ids: seq<nat>)
    ensures |ids| == |ns| && forall k :: 0 <= k < |ns| ==> ids[k] == ns[k].id
  {
    seq(|ns|, k requires 0 <= k < |ns| => ns[k].id)
  }

  ghost function RecOf(n: Node): Rec
    reads n
  {
    Rec(n.elem, n.attributes, IdsOf(n.children))
  }

  ghost function RecsOf(ns: seq<Node>): (recs: seq<Rec>)
    reads ns
    ensures |recs| == |ns| && forall i :: 0 <= i < |ns| ==> recs[i] == RecOf(ns[i])
  {
    seq(|ns|, i requires 0 <= i < |ns| reads ns => RecOf(ns[i]))
  }

  ghost predicate Known(ns: seq<Node>, nodes: seq<Node>, lo: nat) {
    forall k :: 0 <= k < |ns| ==> lo <= ns[k].id < |nodes| && nodes[ns[k].id] == ns[k]
  }

  /** A node's children were created after it. */
  ghost predicate ChildrenKnown(nodes: seq<Node>, i: nat)
    requires i < |nodes|
    reads nodes[i]
  {
    Known(nodes[i].children, nodes, i + 1)
  }

  class HtmlBuilder {
    var dom: seq<Node>
    var tagStack: seq<Node>
    var lastTag: Node?
    ghost var nodes: seq<Node>

    ghost predicate Valid()
      reads this, nodes
    {
      && (forall i :: 0 <= i < |nodes| ==> nodes[i].id == i)
      && (forall i {:trigger ChildrenKnown(nodes, i)} :: 0 <= i < |nodes| ==> ChildrenKnown(nodes, i))
      && Known(dom, nodes, 0) && Known(tagStack, nodes, 0)
      && (forall k :: 0 <= k < |tagStack| ==> tagStack[k].elem.Tag?)
      && (lastTag != null ==> lastTag.id < |nodes| && nodes[lastTag.id] == lastTag)
    }

    ghost function Abs(): (s: State)
      requires Valid()
      reads this, nodes
      ensures WellFormed(s)
    {
      State(RecsOf(nodes), IdsOf(dom), IdsOf(tagStack), if lastTag == null then None else Some(lastTag.id))
    }

    constructor ()
      ensures Valid() && Abs() == EMPTY && nodes == []
    {
      dom, tagStack, lastTag, nodes := [], [], null, [];
    }

    method Reset()
      modifies this
      ensures Valid() && Abs() == EMPTY
    {
      dom, tagStack, lastTag, nodes := [], [], null, [];
    }

    /** `dom.push(copy)`. */
    method Place(node: Node)
      requires Valid() && node.id == |nodes| && node.attributes == [] && node.children == []
      modifies this`dom, this`nodes
      ensures Valid() && nodes == old(nodes) + [node] && dom == old(dom) + [node]
      ensures RecsOf(nodes) == old(RecsOf(nodes)) + [Rec(node.elem, [], [])]
    {
      ghost var before := nodes;
      dom := dom + [node];
      nodes := nodes + [node];
      forall i | 0 <= i < |nodes| ensures ChildrenKnown(nodes, i) {
        if i < |before| { assert ChildrenKnown(before, i); }
      }
    }

    method AppendTop(e: Element) returns (node: Node)
      requires Valid() && tagStack == []
      modifies this`dom, this`nodes
      ensures Valid() && nodes == old(nodes) + [node]
      ensures node.elem == Copy(e) && Abs() == AddNode(old(Abs()), e)
    {
      ghost var s := Abs();
      node := new Node(Copy(e), |nodes|);
      assert RecsOf(nodes) == s.arena;
      Place(node);
      assert IdsOf(dom) == s.dom + [node.id];
    }

    /** `parent.children.push(copy)`. */
    method Adopt(parent: Node, node: Node)
      requires Valid() && tagStack != [] && parent == tagStack[|tagStack| - 1]
      requires node.id == |nodes| && node.attributes == [] && node.children == []
      modifies this`nodes, parent`children
      ensures Valid() && nodes == old(nodes) + [node]
      ensures RecsOf(nodes) == (var recs, p := old(RecsOf(nodes)), parent.id;
                                recs[p := recs[p].(kids := recs[p].kids + [node.id])] + [Rec(node.elem, [], [])])
    {
      ghost var p, recs, before := parent.id, RecsOf(nodes), nodes;
      assert forall i :: 0 <= i < |nodes| ==> nodes[i] != node;
      parent.children := parent.children + [node];
      nodes := nodes + [node];
      assert RecOf(parent) == recs[p].(kids := recs[p].kids + [node.id]);
      forall i | 0 <= i < |recs| && i != p ensures RecOf(nodes[i]) == recs[i] {
        assert nodes[i].id != p;
      }
      forall i | 0 <= i < |nodes| ensures ChildrenKnown(nodes, i) {
        if i < |before| { assert old(ChildrenKnown(nodes, i)); }
      }
    }

    method AppendChild(parent: Node, e: Element) returns (node: Node)
      requires Valid() && tagStack != [] && parent == tagStack[|tagStack| - 1]
      modifies this`nodes, parent`children
      ensures Valid() && nodes == old(nodes) + [node]
      ensures node.elem == Copy(e) && node.id == |old(nodes)| && Abs() == AddNode(old(Abs()), e)
    {
      ghost var s := Abs();
      node := new Node(Copy(e), |nodes|);
      assert Valid() && RecsOf(nodes) == s.arena && parent.id == s.stack[|s.stack| - 1];
      Adopt(parent, node);
      assert Abs().arena == AddNode(s, e).arena;
      assert IdsOf(dom) == s.dom && IdsOf(tagStack) == s.stack;
    }

    method SetAttribute(node: Node, name: string, data: Option<string>)
      requires Valid() && node in nodes
      modifies node`attributes
      ensures Valid() && Abs() == AddAttr(old(Abs()), node.id, name, data)
    {
      ghost var recs := RecsOf(nodes);
      node.attributes := Assign(node.attributes, Lower(name), data);
      forall i | 0 <= i < |nodes| ensures ChildrenKnown(nodes, i) {
        assert old(ChildrenKnown(nodes, i));
      }
      forall i | 0 <= i < |recs| && i != node.id ensures RecOf(nodes[i]) == recs[i] {
        assert nodes[i].id != node.id;
      }
      assert Abs().arena == AddAttr(old(Abs()), node.id, name, data).arena;
    }

    /** The scan for the innermost matching opening tag leaves the position just below it, or -1. */
    method Scan(base: string) returns (pos: int)
      requires Valid() && tagStack != []
      ensures var k := Innermost(Abs().arena, Abs().stack, base);
              && pos == (if k < 0 then -1 else k - 1)
              && (pos == -1 ==> (tagStack[0].elem.name == base <==> k == 0))
    {
      ghost var arena, stack := Abs().arena, Abs().stack;
      pos := |tagStack| - 1;
      var found := false;
      assert stack[..|stack|] == stack;
      while pos > -1 && !found
        invariant -1 <= pos < |tagStack|
        invariant !found ==> Innermost(arena, stack, base) == Innermost(arena, stack[..pos + 1], base)
        invariant found ==> Innermost(arena, stack, base) == pos + 1 < |tagStack| && tagStack[pos + 1].elem.name == base
        invariant !found && pos == -1 ==> tagStack[0].elem.name != base
        decreases pos, !found
      {
        assert stack[..pos + 1][..pos] == stack[..pos];
        found := tagStack[pos].elem.name == base;
        pos := pos - 1;
      }
    }

    method PopTo(pos: int)
      requires Valid() && -1 <= pos < |tagStack|
      modifies this`tagStack
      ensures Valid() && Abs() == old(Abs()).(stack := old(Abs()).stack[..pos + 1])
    {
      while pos < |tagStack| - 1
        invariant -1 <= pos < |tagStack| <= |old(tagStack)|
        invariant tagStack == old(tagStack)[..|tagStack|]
      {
        tagStack := tagStack[..|tagStack| - 1];
      }
      assert IdsOf(tagStack) == old(Abs()).stack[..pos + 1];
    }

    method CloseTag(base: string)
      requires Valid() && tagStack != []
      modifies this`tagStack
      ensures Valid() && Abs() == Close(old(Abs()), base)
    {
      var pos := Scan(base);
      if pos > -1 || tagStack[0].elem.name == base { PopTo(pos); }
    }

    /** A tag just appended becomes the last one, and the innermost open one if it can have children. */
    method Enter(node: Node)
      requires Valid() && nodes != [] && node == nodes[|nodes| - 1] && node.elem.Tag?
      modifies this`tagStack, this`lastTag
      ensures Valid()
      ensures Abs() == old(Abs()).(last := Some(node.id),
                                   stack := if IsEmptyTag(node.elem.name) then old(Abs()).stack else old(Abs()).stack + [node.id])
    {
      if !IsEmptyTag(node.elem.name) { tagStack := tagStack + [node]; }
      lastTag := node;
    }

    method WriteTop(e: Element)
      requires Valid() && tagStack == []
      modifies this, nodes
      ensures Valid() && Abs() == Step(old(Abs()), e)
    {
      if e.Tag? {
        if !StartsWith(e.name, '/') {
          var node := AppendTop(e);
          Enter(node);
        }
      } else if e.Attr? && lastTag != null {
        SetAttribute(lastTag, e.name, e.data);
      } else {
        var _ := AppendTop(e);
      }
    }

    method OpenInside(e: Element)
      requires Valid() && tagStack != [] && e.Tag? && !StartsWith(e.name, '/')
      modifies this, tagStack[|tagStack| - 1]
      ensures Valid() && Abs() == Step(old(Abs()), e)
    {
      ghost var before := Abs();
      var node := AppendChild(tagStack[|tagStack| - 1], e);
      ghost var s := AddNode(before, e);
      assert node.id == |before.arena| && node.elem == Tag(Lower(e.name));
      Enter(node);
      assert Abs() == s.(last := Some(|before.arena|),
                         stack := if IsEmptyTag(Lower(e.name)) then s.stack else s.stack + [|before.arena|]);
    }

    method WriteInside(e: Element)
      requires Valid() && tagStack != []
      modifies this, tagStack[|tagStack| - 1]
      ensures Valid() && Abs() == Step(old(Abs()), e)
    {
      if e.Tag? {
        if StartsWith(e.name, '/') {
          if !IsEmptyTag(e.name) { CloseTag(Lower(e.name[1..])); }
        } else {
          OpenInside(e);
        }
      } else if e.Attr? {
        SetAttribute(tagStack[|tagStack| - 1], e.name, e.data);
      } else {
        var _ := AppendChild(tagStack[|tagStack| - 1], e);
      }
    }

    method Write(e: Element)
      requires Valid()
      modifies this, nodes
      ensures Valid() && Abs() == Step(old(Abs()), e)
    {
      if tagStack == [] { WriteTop(e); } else { WriteInside(e); }
    }
  }
}
