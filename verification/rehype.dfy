/** The build-time rewrite done by the rehype plugin: every
    `<pre><code class="language-mermaid">…</code></pre>` in a HAST tree becomes
    `<pre class="mermaid">…text…</pre>`, and the number of rewrites is counted. */
module RehypeMermaid {
  import opened Common

  /** A HAST node. `className` is the element's `properties.className` when it
      is an array (absent or non-array values are `None`: `Array.isArray`
      rejects both); `props` holds every other property. */
  datatype Node =
    | Element(tag: string, className: Option<seq<string>>, props: map<string, string>, children: seq<Node>)
    | Text(value: string)

  /** A HAST root: the visit starts at its children. */
  datatype Tree = Root(children: seq<Node>)

  /** Result of visiting a node: the rewritten node and how many blocks were rewritten. */
  datatype Visit = Visit(node: Node, count: nat)
  datatype VisitAll = VisitAll(nodes: seq<Node>, count: nat)

  const MermaidLanguageClass := "language-mermaid"
  const MermaidClass := "mermaid"

  /** The text of a node as `toString` of mdast-util-to-string computes it:
      a text node's value, an element's children's text concatenated. */
  function TextOf(n: Node): string
    decreases n
  {
    match n
    case Text(v) => v
    case Element(_, _, _, cs) => TextOfAll(cs)
  }

  function TextOfAll(ns: seq<Node>): string
    decreases ns
  {
    if ns == [] then "" else TextOf(ns[0]) + TextOfAll(ns[1..])
  }

  /** A `code` element whose className array includes `language-mermaid`. */
  predicate IsMermaidCode(c: Node)
  {
    && c.Element?
    && c.tag == "code"
    && c.className.Some?
    && MermaidLanguageClass in c.className.value
  }

  /** The plugin's match: a `pre` with exactly one child, that child mermaid code. */
  predicate IsMermaidBlock(n: Node)
  {
    && n.Element?
    && n.tag == "pre"
    && |n.children| == 1
    && IsMermaidCode(n.children[0])
  }

  /** The replacement node for a matched block. */
  function Rewrite(pre: Node): (r: Node)
    requires IsMermaidBlock(pre)
    ensures r.Element? && r.tag == "pre" && r.props == pre.props
    ensures r.className == Some([MermaidClass])
    ensures r.children == [Text(TextOf(pre.children[0]))]
  {
    Element(pre.tag, Some([MermaidClass]), pre.props, [Text(TextOf(pre.children[0]))])
  }

  /** The number of blocks the pre-order visit meets: a matched block counts
      once and its old contents are never visited (they are replaced before
      the visit descends); any other element contributes its children's blocks. */
  function CountBlocks(n: Node): nat
    decreases n
  {
    if IsMermaidBlock(n) then 1
    else match n
      case Text(_) => 0
      case Element(_, _, _, cs) => CountBlocksAll(cs)
  }

  function CountBlocksAll(ns: seq<Node>): nat
    decreases ns
  {
    if ns == [] then 0 else CountBlocks(ns[0]) + CountBlocksAll(ns[1..])
  }

  /** The visitor applied in pre-order. After a rewrite the visit descends
      into the new single text child, which is not an element, so nothing
      below a rewritten block is matched again. */
  function Transform(n: Node): (r: Visit)
    decreases n
    ensures r.count == CountBlocks(n)
    ensures IsMermaidBlock(n) ==> r.node == Rewrite(n)
    ensures n.Text? ==> r.node == n
    ensures n.Element? && !IsMermaidBlock(n) ==>
      && r.node.Element?
      && r.node.tag == n.tag
      && r.node.className == n.className
      && r.node.props == n.props
      && |r.node.children| == |n.children|
      && (forall i :: 0 <= i < |n.children| ==> r.node.children[i] == Transform(n.children[i]).node)
    ensures r.count == 0 <==> r.node == n
  {
    match n
    case Text(_) => Visit(n, 0)
    case Element(tag, cls, props, cs) =>
      if IsMermaidBlock(n) then
        Visit(Rewrite(n), 1)
      else
        var v := TransformAll(cs);
        Visit(Element(tag, cls, props, v.nodes), v.count)
  }

  function TransformAll(ns: seq<Node>): (r: VisitAll)
    decreases ns
    ensures r.count == CountBlocksAll(ns)
    ensures |r.nodes| == |ns|
    ensures forall i :: 0 <= i < |ns| ==> r.nodes[i] == Transform(ns[i]).node
    ensures r.count == 0 <==> r.nodes == ns
  {
    if ns == [] then VisitAll([], 0)
    else
      var h := Transform(ns[0]);
      var t := TransformAll(ns[1..]);
      var r := VisitAll([h.node] + t.nodes, h.count + t.count);
      assert r.nodes == ns ==> h.node == ns[0] && t.nodes == ns[1..] by {
        if r.nodes == ns {
          assert r.nodes[0] == ns[0];
          assert r.nodes[1..] == t.nodes;
        }
      }
      assert h.node == ns[0] && t.nodes == ns[1..] ==> r.nodes == ns by {
        if h.node == ns[0] && t.nodes == ns[1..] {
          assert ns == [ns[0]] + ns[1..];
        }
      }
      r
  }

  /** The transformer on a whole document: the rewritten root and `mermaidCount`. */
  function TransformTree(t: Tree): (r: (Tree, nat))
    ensures r.1 == CountBlocksAll(t.children)
    ensures r.1 == 0 <==> r.0 == t
  {
    var v := TransformAll(t.children);
    (Root(v.nodes), v.count)
  }

  /** Content preservation: the rewrite never changes the document's text,
      because a matched `pre`'s only child is the code whose text it keeps. */
  lemma {:induction false} TextPreserved(n: Node)
    ensures TextOf(Transform(n).node) == TextOf(n)
    decreases n
  {
    match n
    case Text(_) =>
    case Element(tag, cls, props, cs) =>
      if IsMermaidBlock(n) {
        assert TextOfAll(cs) == TextOf(cs[0]) + TextOfAll(cs[1..]);
        assert cs[1..] == [];
        var rw := Rewrite(n);
        assert TextOfAll(rw.children) == TextOf(rw.children[0]) + TextOfAll(rw.children[1..]);
        assert rw.children[1..] == [];
      } else {
        TextPreservedAll(cs);
      }
  }

  lemma {:induction false} TextPreservedAll(ns: seq<Node>)
    ensures TextOfAll(TransformAll(ns).nodes) == TextOfAll(ns)
    decreases ns
  {
    if ns != [] {
      var out := TransformAll(ns).nodes;
      TextPreserved(ns[0]);
      TextPreservedAll(ns[1..]);
      assert out[1..] == TransformAll(ns[1..]).nodes;
    }
  }

  /** The visit keeps the tag and className of every node it does not
      rewrite, so whether a node is mermaid code never changes. */
  lemma MermaidCodeStable(c: Node)
    ensures IsMermaidCode(Transform(c).node) == IsMermaidCode(c)
  {
  }

  /** The output holds no block the plugin would match: a rewritten `pre`'s
      only child is text, and every other node keeps its shape. */
  lemma {:induction false} NoBlocksLeft(n: Node)
    ensures CountBlocks(Transform(n).node) == 0
    decreases n
  {
    match n
    case Text(_) =>
    case Element(tag, cls, props, cs) =>
      var out := Transform(n).node;
      if IsMermaidBlock(n) {
        assert CountBlocksAll(out.children) == CountBlocks(out.children[0]) + CountBlocksAll(out.children[1..]);
        assert out.children[1..] == [];
      } else {
        if out.tag == "pre" && |out.children| == 1 {
          MermaidCodeStable(cs[0]);
        }
        assert !IsMermaidBlock(out);
        NoBlocksLeftAll(cs);
      }
  }

  lemma {:induction false} NoBlocksLeftAll(ns: seq<Node>)
    ensures CountBlocksAll(TransformAll(ns).nodes) == 0
    decreases ns
  {
    if ns != [] {
      var out := TransformAll(ns).nodes;
      NoBlocksLeft(ns[0]);
      NoBlocksLeftAll(ns[1..]);
      assert out[1..] == TransformAll(ns[1..]).nodes;
    }
  }

  /** Running the transformer on its own output rewrites nothing and counts zero. */
  lemma Idempotent(t: Tree)
    ensures TransformTree(TransformTree(t).0) == (TransformTree(t).0, 0)
  {
    NoBlocksLeftAll(t.children);
  }

  /** The whole document's text is preserved. */
  lemma TreeTextPreserved(t: Tree)
    ensures TextOfAll(TransformTree(t).0.children) == TextOfAll(t.children)
  {
    TextPreservedAll(t.children);
  }

  /** A `pre.mermaid` element, as the client script's selector finds it. */
  predicate IsPlaceholder(n: Node)
  {
    n.Element? && n.tag == "pre" && n.className.Some? && MermaidClass in n.className.value
  }

  /** `querySelectorAll('pre.mermaid')` in document order, as the text of each match. */
  function Discover(n: Node): seq<string>
    decreases n
  {
    (if IsPlaceholder(n) then [TextOf(n)] else [])
    + match n
      case Text(_) => []
      case Element(_, _, _, cs) => DiscoverAll(cs)
  }

  function DiscoverAll(ns: seq<Node>): seq<string>
    decreases ns
  {
    if ns == [] then [] else Discover(ns[0]) + DiscoverAll(ns[1..])
  }

  /** The code text of every block the visit rewrites, in document order. */
  function BlockTexts(n: Node): seq<string>
    decreases n
  {
    if IsMermaidBlock(n) then [TextOf(n.children[0])]
    else match n
      case Text(_) => []
      case Element(_, _, _, cs) => BlockTextsAll(cs)
  }

  function BlockTextsAll(ns: seq<Node>): seq<string>
    decreases ns
  {
    if ns == [] then [] else BlockTexts(ns[0]) + BlockTextsAll(ns[1..])
  }

  lemma {:induction false} BlockTextsCount(n: Node)
    ensures |BlockTexts(n)| == CountBlocks(n)
    decreases n
  {
    if !IsMermaidBlock(n) && n.Element? {
      BlockTextsCountAll(n.children);
    }
  }

  lemma {:induction false} BlockTextsCountAll(ns: seq<Node>)
    ensures |BlockTextsAll(ns)| == CountBlocksAll(ns)
    decreases ns
  {
    if ns != [] {
      BlockTextsCount(ns[0]);
      BlockTextsCountAll(ns[1..]);
    }
  }

  /** On a document that had no `pre.mermaid` yet, the client script finds
      exactly the rewritten blocks, in order, each holding its code's text. */
  lemma {:induction false} DiscoverAfterTransform(n: Node)
    requires Discover(n) == []
    ensures Discover(Transform(n).node) == BlockTexts(n)
    decreases n
  {
    match n
    case Text(_) =>
    case Element(tag, cls, props, cs) =>
      if IsMermaidBlock(n) {
        DiscoverRewrite(n);
      } else {
        var out := Transform(n).node;
        assert !IsPlaceholder(n);
        assert !IsPlaceholder(out);
        DiscoverAfterTransformAll(cs);
      }
  }

  /** A rewritten block is one placeholder whose text is the block's code text. */
  lemma DiscoverRewrite(n: Node)
    requires IsMermaidBlock(n)
    ensures Discover(Rewrite(n)) == [TextOf(n.children[0])]
  {
    var out := Rewrite(n);
    var t := TextOf(n.children[0]);
    assert out.children[1..] == [];
    assert TextOfAll(out.children) == TextOf(out.children[0]) + TextOfAll(out.children[1..]);
    assert TextOf(out) == t;
    assert DiscoverAll(out.children) == Discover(out.children[0]) + DiscoverAll(out.children[1..]);
  }

  lemma {:induction false} DiscoverAfterTransformAll(ns: seq<Node>)
    requires DiscoverAll(ns) == []
    ensures DiscoverAll(TransformAll(ns).nodes) == BlockTextsAll(ns)
    decreases ns
  {
    if ns != [] {
      var out := TransformAll(ns).nodes;
      DiscoverAfterTransform(ns[0]);
      DiscoverAfterTransformAll(ns[1..]);
      assert out[1..] == TransformAll(ns[1..]).nodes;
    }
  }

  /** The tree-level statement: N rewritten blocks give N placeholders. */
  lemma PlaceholdersAreBlocks(t: Tree)
    requires DiscoverAll(t.children) == []
    ensures DiscoverAll(TransformTree(t).0.children) == BlockTextsAll(t.children)
    ensures |DiscoverAll(TransformTree(t).0.children)| == TransformTree(t).1
  {
    DiscoverAfterTransformAll(t.children);
    BlockTextsCountAll(t.children);
  }
}
