/**
 * The parsed report as an immutable element tree: what a DOM parser hands the
 * extractor.  Tag names are stored as the DOM reports them (`tagName`, upper
 * case).  Queries return elements in document order (preorder), each with the
 * child list of its parent and its position there, so that
 * `nextElementSibling` is a forward scan of that list.
 */
module Dom {
  import opened Options

  datatype Node = Element(tag: string, children: seq<Node>) | TextNode(data: string)

  /** An element found in the document, with its parent's children and its index among them. */
  datatype Loc = Loc(node: Node, siblings: seq<Node>, index: nat)

  predicate HasTag(n: Node, tags: set<string>) {
    n.Element? && n.tag in tags
  }

  /** A location really points at an element of its sibling list. */
  predicate Placed(l: Loc) {
    l.index < |l.siblings| && l.siblings[l.index] == l.node && l.node.Element?
  }

  /** `node.textContent`: the concatenation of the descendant text nodes. */
  function TextContent(n: Node): string
    decreases n, 1
  {
    match n
    case TextNode(t) => t
    case Element(_, _) => ChildrenText(n, 0)
  }

  function ChildrenText(n: Node, from: nat): string
    requires n.Element? && from <= |n.children|
    decreases n, 0, |n.children| - from
  {
    if from == |n.children| then "" else TextContent(n.children[from]) + ChildrenText(n, from + 1)
  }

  /** The elements of the subtree rooted at `siblings[index]`, root first, in document order. */
  function SubtreeLocs(siblings: seq<Node>, index: nat): seq<Loc>
    requires index < |siblings|
    decreases siblings[index], 1
  {
    var n := siblings[index];
    match n
    case TextNode(_) => []
    case Element(_, _) => [Loc(n, siblings, index)] + ChildLocs(n, 0)
  }

  /** The elements below the children `from..` of `n`, in document order. */
  function ChildLocs(n: Node, from: nat): seq<Loc>
    requires n.Element? && from <= |n.children|
    decreases n, 0, |n.children| - from
  {
    if from == |n.children| then [] else SubtreeLocs(n.children, from) + ChildLocs(n, from + 1)
  }

  /** Every element strictly inside `n`, in document order (what `n.querySelectorAll` searches). */
  function Descendants(n: Node): seq<Loc> {
    if n.Element? then ChildLocs(n, 0) else []
  }

  /** Every element of the document whose root element is `root`, in document order. */
  function DocumentOrder(root: Node): seq<Loc> {
    SubtreeLocs([root], 0)
  }

  /** The locations whose element has one of `tags`, in their original order. */
  function Select(ls: seq<Loc>, tags: set<string>): (r: seq<Loc>)
    ensures |r| <= |ls|
    ensures forall l :: l in r <==> l in ls && HasTag(l.node, tags)
  {
    if ls == [] then []
    else (if HasTag(ls[0].node, tags) then [ls[0]] else []) + Select(ls[1..], tags)
  }

  /** Selection works element by element: selecting from a split list gives the two selections joined, so document order is kept. */
  lemma {:induction false} SelectAppend(a: seq<Loc>, b: seq<Loc>, tags: set<string>)
    ensures Select(a + b, tags) == Select(a, tags) + Select(b, tags)
    decreases |a|
  {
    if a == [] {
      assert a + b == b;
    } else {
      assert (a + b)[0] == a[0];
      assert (a + b)[1..] == a[1..] + b;
      SelectAppend(a[1..], b, tags);
    }
  }

  /** Selecting from a single location keeps it exactly when it has one of the tags. */
  lemma SelectSingle(l: Loc, tags: set<string>)
    ensures Select([l], tags) == if HasTag(l.node, tags) then [l] else []
  {
    assert [l][1..] == [];
  }

  function Nodes(ls: seq<Loc>): (r: seq<Node>)
    ensures |r| == |ls| && forall i :: 0 <= i < |ls| ==> r[i] == ls[i].node
  {
    seq(|ls|, i requires 0 <= i < |ls| => ls[i].node)
  }

  /** `n.querySelectorAll(...)` for a selector list of plain tag names. */
  function QueryAll(n: Node, tags: set<string>): (r: seq<Node>)
    ensures forall c :: c in r ==> HasTag(c, tags)
    ensures forall l :: l in Descendants(n) && HasTag(l.node, tags) ==> l.node in r
  {
    var ls := Select(Descendants(n), tags);
    assert forall i :: 0 <= i < |ls| ==> ls[i] in ls;
    var r := Nodes(ls);
    assert forall l :: l in ls ==> l.node in r by {
      forall l | l in ls ensures l.node in r {
        var i :| 0 <= i < |ls| && ls[i] == l;
        assert r[i] == l.node;
      }
    }
    r
  }

  /** `element.nextElementSibling`, as an index into the parent's children. */
  function NextElementSibling(siblings: seq<Node>, index: nat): (r: Option<nat>)
    ensures r.Some? ==> index < r.value < |siblings| && siblings[r.value].Element?
    ensures r.Some? ==> forall j :: index < j < r.value ==> !siblings[j].Element?
    ensures r.None? ==> forall j :: index < j < |siblings| ==> !siblings[j].Element?
    decreases |siblings| - index
  {
    if index + 1 >= |siblings| then None
    else if siblings[index + 1].Element? then Some(index + 1)
    else NextElementSibling(siblings, index + 1)
  }

  // Every location the queries produce points at its element.

  lemma {:induction false} SubtreePlaced(siblings: seq<Node>, index: nat)
    requires index < |siblings|
    ensures forall l :: l in SubtreeLocs(siblings, index) ==> Placed(l)
    decreases siblings[index], 1
  {
    var n := siblings[index];
    if n.Element? {
      ChildrenPlaced(n, 0);
    }
  }

  lemma {:induction false} ChildrenPlaced(n: Node, from: nat)
    requires n.Element? && from <= |n.children|
    ensures forall l :: l in ChildLocs(n, from) ==> Placed(l)
    decreases n, 0, |n.children| - from
  {
    if from < |n.children| {
      SubtreePlaced(n.children, from);
      ChildrenPlaced(n, from + 1);
    }
  }

  lemma DocumentPlaced(root: Node)
    ensures forall l :: l in DocumentOrder(root) ==> Placed(l)
  {
    SubtreePlaced([root], 0);
  }

  // The element siblings of any element of the document are in the document too.

  /** Every element sibling of `l` appears in `ls` at its own position. */
  ghost predicate SiblingsListed(ls: seq<Loc>, l: Loc) {
    forall k :: 0 <= k < |l.siblings| && l.siblings[k].Element? ==> Loc(l.siblings[k], l.siblings, k) in ls
  }

  lemma {:induction false} ChildLocsContain(n: Node, from: nat, k: nat)
    requires n.Element? && from <= k < |n.children|
    ensures forall l :: l in SubtreeLocs(n.children, k) ==> l in ChildLocs(n, from)
    decreases |n.children| - from
  {
    if from < k {
      ChildLocsContain(n, from + 1, k);
    }
  }

  lemma {:induction false} SubtreeSiblings(siblings: seq<Node>, index: nat)
    requires index < |siblings|
    ensures forall l :: l in SubtreeLocs(siblings, index) ==>
      l.siblings == siblings || SiblingsListed(SubtreeLocs(siblings, index), l)
    decreases siblings[index], 1
  {
    var n := siblings[index];
    if n.Element? {
      ChildrenSiblings(n);
    }
  }

  lemma {:induction false} ChildrenSiblings(n: Node)
    requires n.Element?
    ensures forall l :: l in ChildLocs(n, 0) ==> SiblingsListed(ChildLocs(n, 0), l)
    decreases n, 0
  {
    var all := ChildLocs(n, 0);
    forall k | 0 <= k < |n.children| && n.children[k].Element?
      ensures Loc(n.children[k], n.children, k) in all
    {
      ChildLocsContain(n, 0, k);
    }
    forall l | l in all ensures SiblingsListed(all, l) {
      var k := ChildIndexOf(n, 0, l);
      SubtreeSiblings(n.children, k);
      ChildLocsContain(n, 0, k);
    }
  }

  /** Which child's subtree a location of `ChildLocs(n, from)` comes from. */
  lemma {:induction false} ChildIndexOf(n: Node, from: nat, l: Loc) returns (k: nat)
    requires n.Element? && from <= |n.children|
    requires l in ChildLocs(n, from)
    ensures from <= k < |n.children| && l in SubtreeLocs(n.children, k)
    decreases |n.children| - from
  {
    if l in SubtreeLocs(n.children, from) {
      k := from;
    } else {
      k := ChildIndexOf(n, from + 1, l);
    }
  }

  lemma DocumentSiblings(root: Node, l: Loc)
    requires l in DocumentOrder(root)
    ensures SiblingsListed(DocumentOrder(root), l)
  {
    SubtreeSiblings([root], 0);
    if l.siblings == [root] {
      if root.Element? {
        assert DocumentOrder(root)[0] == Loc(root, [root], 0);
      }
    }
  }
}
