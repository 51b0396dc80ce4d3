/** The rich-text tree the CMS delivers, as the site's walkers see it.

    A field is an array of entries. An entry is either an object (a block)
    or something else: `null`/`undefined` (`Missing`) or another primitive.
    A block may nest further entries under `items`, `content` and
    `children`. An absent nested list and a non-array value there are both
    modelled as the empty list: every walker tests `Array.isArray` first,
    and iterating an empty list does nothing. `spans` keeps its absence,
    because an empty spans array stops the text lookup where an absent one
    does not. */
module RichText {
  import opened Js

  datatype Span = Span(text: Option<string>)

  /** A block's `content` property: a nested entry list, or a scalar whose
      string value (`""` when it is absent or not a string) the heading
      text fallback may read. */
  datatype Content = Nested(nodes: seq<Node>) | Scalar(s: string)

  datatype Block = Block(
    typeName: Option<string>,   // `type`
    blockType: Option<string>,  // `block_type`
    kind: Option<string>,
    nodeType: Option<string>,
    text: Option<string>,
    spans: Option<seq<Span>>,
    items: seq<Node>,
    content: Content,
    children: seq<Node>,
    value: JsValue,
    labelProp: JsValue)    // `label`

  datatype Node = Missing | Primitive | Obj(b: Block)

  /** The blocks of a list in the order the tables-of-contents walk visits
      them: each block, then its `items`, then its `content` when that is
      a list, then its `children`. Non-object entries are skipped. */
  function PreOrder(ns: seq<Node>): seq<Block>
    decreases ns, 1
  {
    if ns == [] then [] else NodePre(ns[0]) + PreOrder(ns[1..])
  }

  function NodePre(n: Node): seq<Block>
    decreases n, 0
  {
    match n
    case Obj(b) =>
      [b] + PreOrder(b.items)
      + (if b.content.Nested? then PreOrder(b.content.nodes) else [])
      + PreOrder(b.children)
    case _ => []
  }

  lemma {:induction false} PreOrderAppend(a: seq<Node>, b: seq<Node>)
    ensures PreOrder(a + b) == PreOrder(a) + PreOrder(b)
  {
    if a == [] {
      assert a + b == b;
    } else {
      assert (a + b)[1..] == a[1..] + b;
      PreOrderAppend(a[1..], b);
    }
  }

  /** Extending a list by one entry extends its walk by that entry's walk. */
  lemma PreOrderSnoc(ns: seq<Node>, i: nat)
    requires i < |ns|
    ensures PreOrder(ns[..i + 1]) == PreOrder(ns[..i]) + NodePre(ns[i])
  {
    assert ns[..i + 1] == ns[..i] + [ns[i]];
    PreOrderAppend(ns[..i], [ns[i]]);
    assert PreOrder([ns[i]]) == NodePre(ns[i]) + PreOrder([]);
  }
}
