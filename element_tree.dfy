/** The abstract element tree the hooks edit through the `elementtree`
    library: elements with a tag, attributes, optional text and ordered
    children. A node is identified by its path of child indices from the
    root; document order is the pre-order walk that `iter('*')` performs,
    root first. */
module ElementTree {
  import opened Base

  /** An attribute value or a text is a string or JavaScript `undefined`. */
  datatype Element = Element(
    tag: string,
    attrib: map<string, Option<string>>,
    text: Option<string>,
    children: seq<Element>)

  type Path = seq<nat>

  /** `SubElement(parent, tag)`: a fresh element, no attributes, no text. */
  function NewElement(tag: string): Element {
    Element(tag, map[], None, [])
  }

  function WithText(tag: string, text: Option<string>): Element {
    Element(tag, map[], text, [])
  }

  predicate ValidPath(e: Element, p: Path)
    decreases |p|
  {
    |p| == 0 || (p[0] < |e.children| && ValidPath(e.children[p[0]], p[1..]))
  }

  /** The node at a path. */
  function At(e: Element, p: Path): Element
    requires ValidPath(e, p)
    decreases |p|
  {
    if |p| == 0 then e else At(e.children[p[0]], p[1..])
  }

  /** The tree with the node at `p` replaced by `n`. */
  function Update(e: Element, p: Path, n: Element): Element
    requires ValidPath(e, p)
    decreases |p|
  {
    if |p| == 0 then n
    else e.(children := e.children[p[0] := Update(e.children[p[0]], p[1..], n)])
  }

  predicate IsPrefix(p: Path, q: Path) {
    |p| <= |q| && q[..|p|] == p
  }

  /** The paths of all nodes of `e`, in document order. */
  function PreOrder(e: Element): seq<Path>
    decreases e, 1
  {
    [[]] + ForestOrder(e, 0)
  }

  /** The paths of the subtrees of `e.children[i..]`, in document order. */
  function ForestOrder(e: Element, i: nat): seq<Path>
    requires i <= |e.children|
    decreases e, 0, |e.children| - i
  {
    if i == |e.children| then []
    else Prefixed(i, PreOrder(e.children[i])) + ForestOrder(e, i + 1)
  }

  function Prefixed(i: nat, ps: seq<Path>): (r: seq<Path>)
    ensures |r| == |ps| && forall k :: 0 <= k < |ps| ==> r[k] == [i] + ps[k]
  {
    seq(|ps|, k requires 0 <= k < |ps| => [i] + ps[k])
  }

  lemma {:induction false} PreOrderValid(e: Element)
    ensures forall k :: 0 <= k < |PreOrder(e)| ==> ValidPath(e, PreOrder(e)[k])
    decreases e, 1
  {
    ForestOrderValid(e, 0);
  }

  lemma {:induction false} ForestOrderValid(e: Element, i: nat)
    requires i <= |e.children|
    ensures forall k :: 0 <= k < |ForestOrder(e, i)| ==> ValidPath(e, ForestOrder(e, i)[k])
    decreases e, 0, |e.children| - i
  {
    if i < |e.children| {
      var head := Prefixed(i, PreOrder(e.children[i]));
      PreOrderValid(e.children[i]);
      ForestOrderValid(e, i + 1);
      forall k | 0 <= k < |head| ensures ValidPath(e, head[k]) {
        assert head[k][1..] == PreOrder(e.children[i])[k];
      }
    }
  }

  /** The nodes of `e` in document order. */
  function DocNodes(e: Element): (nodes: seq<Element>)
    ensures |nodes| == |PreOrder(e)|
    ensures forall k :: 0 <= k < |nodes| ==> ValidPath(e, PreOrder(e)[k]) && nodes[k] == At(e, PreOrder(e)[k])
  {
    var ps := PreOrder(e);
    PreOrderValid(e);
    seq(|ps|, k requires 0 <= k < |ps| && ValidPath(e, ps[k]) => At(e, ps[k]))
  }

  /** Replacing a node leaves exactly that node replaced ... */
  lemma {:induction false} AtUpdateSame(e: Element, p: Path, n: Element)
    requires ValidPath(e, p)
    ensures ValidPath(Update(e, p, n), p) && At(Update(e, p, n), p) == n
    decreases |p|
  {
    if |p| > 0 {
      AtUpdateSame(e.children[p[0]], p[1..], n);
    }
  }

  /** ... and every node outside the replaced subtree and off the path to it untouched. */
  lemma {:induction false} AtUpdateOther(e: Element, p: Path, q: Path, n: Element)
    requires ValidPath(e, p) && ValidPath(e, q)
    requires !IsPrefix(p, q) && !IsPrefix(q, p)
    ensures ValidPath(Update(e, p, n), q) && At(Update(e, p, n), q) == At(e, q)
    decreases |p|
  {
    assert |p| > 0 && |q| > 0;
    if p[0] == q[0] {
      assert |p| > |q| || q[..|p|] == [q[0]] + q[1..][..|p| - 1];
      assert |q| > |p| || p[..|q|] == [p[0]] + p[1..][..|q| - 1];
      AtUpdateOther(e.children[p[0]], p[1..], q[1..], n);
    }
  }

  /** `a` is `b` except possibly for its `i`-th child: same tag, attributes,
      text and number of children, and every other child equal. */
  predicate SameExceptChild(a: Element, b: Element, i: nat) {
    && a.(children := []) == b.(children := [])
    && |a.children| == |b.children|
    && forall j :: 0 <= j < |a.children| && j != i ==> a.children[j] == b.children[j]
  }

  /** ... and each proper ancestor of the replaced node changes only in its
      child on the path. */
  lemma {:induction false} AtUpdateAncestor(e: Element, p: Path, q: Path, n: Element)
    requires ValidPath(e, p) && IsPrefix(q, p) && |q| < |p|
    ensures ValidPath(Update(e, p, n), q) && ValidPath(e, q)
    ensures SameExceptChild(At(Update(e, p, n), q), At(e, q), p[|q|])
    decreases |q|
  {
    if |q| > 0 {
      assert q[0] == p[0] && IsPrefix(q[1..], p[1..]);
      AtUpdateAncestor(e.children[p[0]], p[1..], q[1..], n);
    }
  }

  /** `parent.find('./tag')`: the index of the first child with that tag. */
  function FindChild(children: seq<Element>, tag: string): (r: Option<nat>)
    ensures r.Some? ==> r.value < |children| && children[r.value].tag == tag
    ensures r.Some? ==> forall j :: 0 <= j < r.value ==> children[j].tag != tag
    ensures r.None? ==> forall j :: 0 <= j < |children| ==> children[j].tag != tag
  {
    if |children| == 0 then None
    else if children[0].tag == tag then Some(0)
    else match FindChild(children[1..], tag)
      case None => None
      case Some(k) => Some(k + 1)
  }

  /** The sequence of tags of a child list. */
  function Tags(children: seq<Element>): (ts: seq<string>)
    ensures |ts| == |children| && forall i :: 0 <= i < |children| ==> ts[i] == children[i].tag
  {
    seq(|children|, i requires 0 <= i < |children| => children[i].tag)
  }

  /** Two child lists with the same tags have their first `tag` child at the same index. */
  lemma FindChildByTags(a: seq<Element>, b: seq<Element>, tag: string)
    requires Tags(a) == Tags(b)
    ensures FindChild(a, tag) == FindChild(b, tag)
  {
    var fa, fb := FindChild(a, tag), FindChild(b, tag);
    assert |a| == |b|;
    if fa.Some? && fb.Some? {
      assert Tags(a)[fb.value] == Tags(b)[fb.value];
      assert Tags(a)[fa.value] == Tags(b)[fa.value];
    }
  }
}
