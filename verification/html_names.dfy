// Upper and lower case: names are stored in lower case, and the case in which tags and attributes are
// written makes no difference to the DOM.
module HtmlNames {
  import opened Wrappers
  import opened HtmlBuilding
  import opened HtmlForests
  import opened HtmlRoundTrip

  predicate Capital(c: char) {
    'A' <= c <= 'Z'
  }

  predicate NoCapitals(s: string) {
    forall i :: 0 <= i < |s| ==> !Capital(s[i])
  }

  /** Lowering turns `A` into `a` and so on up to `Z`, keeps every other character, and leaves no capital. */
  lemma LowerExactly(s: string)
    ensures |Lower(s)| == |s| && NoCapitals(Lower(s))
    ensures forall i :: 0 <= i < |s| ==>
              Lower(s)[i] as int == if Capital(s[i]) then s[i] as int - 'A' as int + 'a' as int else s[i] as int
  {
  }

  /** The same character, or one is the capital of the other. */
  predicate SameLetter(a: char, b: char) {
    || a == b
    || (Capital(a) && b as int == a as int - 'A' as int + 'a' as int)
    || (Capital(b) && a as int == b as int - 'A' as int + 'a' as int)
  }

  predicate Recased(s: string, t: string) {
    |s| == |t| && forall i :: 0 <= i < |s| ==> SameLetter(s[i], t[i])
  }

  /** Two names are stored alike exactly when they differ in case only. */
  lemma RecasedAlike(s: string, t: string)
    ensures Lower(s) == Lower(t) <==> Recased(s, t)
  {
    if Lower(s) == Lower(t) {
      forall i | 0 <= i < |s| ensures SameLetter(s[i], t[i]) {
        assert Lower(s)[i] == Lower(t)[i];
      }
    }
  }

  // ---- What is stored ----

  predicate LowName(e: Element) {
    e.Leaf? || NoCapitals(e.name)
  }

  predicate LowAttrs(attrs: Attributes) {
    forall k :: 0 <= k < |attrs| ==> NoCapitals(attrs[k].0)
  }

  predicate LowRec(r: Rec) {
    LowName(r.elem) && LowAttrs(r.attrs)
  }

  predicate LowNames(s: State) {
    forall i :: 0 <= i < |s.arena| ==> LowRec(s.arena[i])
  }

  predicate HasName(attrs: Attributes, name: string) {
    exists k :: 0 <= k < |attrs| && attrs[k].0 == name
  }

  /** A property of a new name is the last one; `__proto__` changes nothing. */
  lemma {:induction false} AssignNew(attrs: Attributes, name: string, data: Option<string>)
    requires !HasName(attrs, name)
    ensures Assign(attrs, name, data) == if name == "__proto__" then attrs else attrs + [(name, data)]
    decreases |attrs|
  {
    if attrs != [] {
      assert attrs[0].0 != name;
      assert forall k :: 0 <= k < |attrs[1..]| ==> attrs[1..][k] == attrs[k + 1];
      AssignNew(attrs[1..], name, data);
    }
  }

  /** A property that is there already keeps its place. */
  lemma {:induction false} AssignAgain(attrs: Attributes, name: string, data: Option<string>, k: nat)
    requires k < |attrs| && attrs[k].0 == name != "__proto__" && forall j :: 0 <= j < k ==> attrs[j].0 != name
    ensures Assign(attrs, name, data) == attrs[k := (name, data)]
    decreases |attrs|
  {
    if k > 0 {
      assert attrs[0].0 != name;
      AssignAgain(attrs[1..], name, data, k - 1);
    }
  }

  lemma {:induction false} AssignLow(attrs: Attributes, name: string, data: Option<string>)
    requires NoCapitals(name) && LowAttrs(attrs)
    ensures LowAttrs(Assign(attrs, name, data))
    decreases |attrs|
  {
    var all := Assign(attrs, name, data);
    if attrs != [] {
      AssignLow(attrs[1..], name, data);
      var rest := Assign(attrs[1..], name, data);
      forall k | 0 <= k < |all| ensures NoCapitals(all[k].0) {
        assert all[k] == (name, data) || all[k] in attrs || (k > 0 && all[k] == rest[k - 1]);
      }
    }
  }

  lemma AddNodeLow(s: State, e: Element, s': State)
    requires WellFormed(s) && LowNames(s) && s' == AddNode(s, e)
    ensures LowNames(s')
  {
    if !e.Leaf? { LowerExactly(e.name); }
    assert LowName(Copy(e));
  }

  lemma AddAttrLow(s: State, i: nat, name: string, data: Option<string>, s': State)
    requires WellFormed(s) && LowNames(s) && i < |s.arena| && s' == AddAttr(s, i, name, data)
    ensures LowNames(s')
  {
    LowerExactly(name);
    assert LowRec(s.arena[i]);
    AssignLow(s.arena[i].attrs, Lower(name), data);
    forall j | 0 <= j < |s'.arena| ensures LowRec(s'.arena[j]) {
      assert LowRec(s.arena[j]);
    }
  }

  lemma StepLow(s: State, e: Element, s': State)
    requires WellFormed(s) && LowNames(s) && s' == Step(s, e)
    ensures LowNames(s')
  {
    match e
    case Tag(name) => if !StartsWith(name, '/') { AddNodeLow(s, e, AddNode(s, e)); }
    case Attr(name, data) =>
      if s.stack != [] {
        AddAttrLow(s, s.stack[|s.stack| - 1], name, data, s');
      } else if s.last.Some? {
        AddAttrLow(s, s.last.value, name, data, s');
      } else {
        AddNodeLow(s, e, s');
      }
    case Leaf(_, _) => AddNodeLow(s, e, s');
  }

  /** Whatever is written, no tag or attribute name in the DOM holds a capital letter. */
  lemma {:induction false} StoredNamesAreLow(es: seq<Element>)
    ensures LowNames(WriteAll(EMPTY, es))
    decreases |es|
  {
    if es != [] {
      var before := WriteAll(EMPTY, es[..|es| - 1]);
      StoredNamesAreLow(es[..|es| - 1]);
      StepLow(before, es[|es| - 1], WriteAll(EMPTY, es));
    }
  }

  // ---- How it is written makes no difference ----

  /** The same event, its name in any case. */
  predicate RecasedEvent(a: Element, b: Element) {
    match (a, b)
    case (Tag(m), Tag(n)) => Recased(m, n)
    case (Attr(m, d), Attr(n, e)) => Recased(m, n) && d == e
    case (Leaf(_, _), Leaf(_, _)) => a == b
    case _ => false
  }

  predicate RecasedStream(as': seq<Element>, bs: seq<Element>) {
    |as'| == |bs| && forall i :: 0 <= i < |as'| ==> RecasedEvent(as'[i], bs[i])
  }

  lemma RecasedTail(m: string, n: string)
    requires Recased(m, n)
    ensures StartsWith(m, '/') <==> StartsWith(n, '/')
    ensures m != "" ==> Lower(m[1..]) == Lower(n[1..])
    ensures Lower(m) == Lower(n) && (IsEmptyTag(m) <==> IsEmptyTag(n))
  {
    RecasedAlike(m, n);
    if m != "" { RecasedAlike(m[1..], n[1..]); }
  }

  lemma RecasedStep(s: State, a: Element, b: Element)
    requires WellFormed(s) && RecasedEvent(a, b)
    ensures Step(s, a) == Step(s, b)
  {
    if !a.Leaf? {
      RecasedTail(a.name, b.name);
      assert Copy(a) == Copy(b);
    }
  }

  /** Writing a stream and writing it with any recasing of its names give the same state. */
  lemma {:induction false} RecasedStreamsAgree(s: State, as': seq<Element>, bs: seq<Element>)
    requires WellFormed(s) && RecasedStream(as', bs)
    ensures WriteAll(s, as') == WriteAll(s, bs)
    decreases |as'|
  {
    if as' != [] {
      var n := |as'| - 1;
      RecasedStreamsAgree(s, as'[..n], bs[..n]);
      RecasedStep(WriteAll(s, as'[..n]), as'[n], bs[n]);
    }
  }

  /** A canonical forest comes back, as far as it does at all, however the names of its opening, closing and
      attribute events are recased, each by itself. */
  lemma RecasedRoundTrip(f: seq<Tree>, es: seq<Element>)
    requires Canonical(f) && RecasedStream(es, Flatten(f))
    ensures var s := WriteAll(EMPTY, es);
            && s.stack == [] && Listed(s.arena, s.dom)
            && Dom(s) == RebuiltAll(f, false) && (Dom(s) == f <==> PlainInside(f))
  {
    RecasedStreamsAgree(EMPTY, es, Flatten(f));
    RebuildsForest(f);
    RoundTrip(f);
  }

  /** Tags that may have children, among others. */
  lemma OrdinaryTags(name: string)
    requires name in {"a", "body", "div", "h1", "head", "html", "li", "p", "span", "table", "td", "title", "tr", "ul", "video"}
    ensures !IsEmptyTag(name) && !IsEmptyTag("/" + name)
  {
    assert Lower(name) == name && Lower("/" + name) == "/" + name && ("/" + name)[1..] == name;
  }

  /** The names of void tags, and the two that a plain object has without being given them. */
  const VOID_NAMES := {"area", "base", "basefont", "br", "col", "frame", "hr", "img", "input", "isindex", "link", "meta",
                       "param", "embed", "?xml", "constructor", "__proto__"}

  /** A tag never has children exactly when it starts with a question mark or has one of these names, be it opening
      or closing and in any case. */
  lemma VoidExactly(written: string)
    ensures IsEmptyTag(written) <==>
              || (written != "" && written[0] == '?')
              || exists name :: name in VOID_NAMES && (Recased(written, name) || Recased(written, "/" + name))
  {
    var lower := Lower(written);
    assert StartsWith(lower, '?') <==> written != "" && written[0] == '?';
    if StartsWith(lower, '/') {
      SlashedNames(written, lower[1..]);
    } else {
      PlainNames(written, lower);
    }
  }

  lemma VoidNamesLow(name: string)
    requires name in VOID_NAMES
    ensures Lower(name) == name && Lower("/" + name) == "/" + name && name != "" && name[0] != '/'
  {
  }

  lemma PlainNames(written: string, lower: string)
    requires lower == Lower(written) && !StartsWith(lower, '/')
    ensures lower in VOID_NAMES <==> exists name :: name in VOID_NAMES && (Recased(written, name) || Recased(written, "/" + name))
  {
    forall name | name in VOID_NAMES ensures lower == name <==> Recased(written, name) || Recased(written, "/" + name) {
      VoidNamesLow(name);
      RecasedAlike(written, name);
      RecasedAlike(written, "/" + name);
    }
  }

  lemma SlashedNames(written: string, base: string)
    requires Lower(written) == "/" + base
    ensures base in VOID_NAMES <==> exists name :: name in VOID_NAMES && (Recased(written, name) || Recased(written, "/" + name))
  {
    forall name | name in VOID_NAMES ensures base == name <==> Recased(written, name) || Recased(written, "/" + name) {
      VoidNamesLow(name);
      RecasedAlike(written, name);
      RecasedAlike(written, "/" + name);
      assert ("/" + base)[1..] == base && ("/" + name)[1..] == name;
    }
  }
}
