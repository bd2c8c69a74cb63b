/**
 * The slice of the Lexical document engine that the wrapper-block popup reads.
 *
 * The tree is a parent map over node keys; node identity is the key (Lexical's
 * `node.is(other)` compares `__key`). A rank (`depth`) that strictly drops from a
 * node to its parent keeps the tree acyclic, so walking up always ends.
 * Which nodes are wrapper blocks (the `$isWrapperBlockNode` predicate handed to the
 * plugin) and which are line breaks (`$isLineBreakNode`) are given as sets.
 */
module Document {
  import opened Wrappers

  type NodeKey = string

  /**
   * A block field value. Strings, booleans and null are explicit; any other JSON
   * value (number, object, array) is kept abstract by how it renders inside a
   * template literal and whether it is truthy.
   */
  datatype Value = Str(s: string) | Bool(b: bool) | Null | Other(shown: string, truthy: bool)

  /** A block's field record, keyed by field name. */
  type Fields = map<string, Value>

  /** What a wrapper block node carries: its fields and its rendered text content. */
  datatype WrapperBlock = WrapperBlock(fields: Fields, textContent: string)

  datatype Doc = Doc(
    parent: map<NodeKey, NodeKey>,
    depth: map<NodeKey, nat>,
    wrapperBlocks: map<NodeKey, WrapperBlock>,
    lineBreaks: set<NodeKey>)
  {
    /** Every node with a parent is ranked strictly below that parent. */
    predicate WellFormed() {
      forall n :: n in parent ==> n in depth && parent[n] in depth && depth[parent[n]] < depth[n]
    }
  }

  /**
   * The editor selection. `RangeSelection` carries the selected nodes in document
   * order and the node `getSelectedNode(selection)` picks as the focus node.
   * Node and grid selections are `OtherSelection`.
   */
  datatype Selection =
    | NoSelection
    | OtherSelection
    | RangeSelection(nodes: seq<NodeKey>, selectedNode: NodeKey)

  /** An on-screen rectangle, in whole pixels. */
  datatype Rect = Rect(x: int, y: int, width: int, height: int)

  /** Every node a range selection names belongs to the tree. */
  predicate SelectionInDoc(doc: Doc, sel: Selection) {
    sel.RangeSelection? ==>
      && sel.selectedNode in doc.depth
      && forall i :: 0 <= i < |sel.nodes| ==> sel.nodes[i] in doc.depth
  }

  /** The node itself followed by its ancestors, up to the root. */
  function AncestorPath(doc: Doc, n: NodeKey): (p: seq<NodeKey>)
    requires doc.WellFormed() && n in doc.depth
    ensures |p| >= 1 && p[0] == n
    ensures forall i :: 0 <= i < |p| - 1 ==> p[i] in doc.parent && p[i + 1] == doc.parent[p[i]]
    ensures p[|p| - 1] !in doc.parent
    decreases doc.depth[n]
  {
    if n in doc.parent then [n] + AncestorPath(doc, doc.parent[n]) else [n]
  }

  /** `r` is the first entry of `path` that lies in `s`, or None when none does. */
  predicate FirstIn(path: seq<NodeKey>, s: set<NodeKey>, r: Option<NodeKey>) {
    match r
    case None => forall i :: 0 <= i < |path| ==> path[i] !in s
    case Some(k) =>
      exists i :: 0 <= i < |path| && path[i] == k && k in s &&
        forall j :: 0 <= j < i ==> path[j] !in s
  }

  /** A path entry outside `s` does not change which entry of the rest is first in `s`. */
  lemma FirstInPrepend(n: NodeKey, path: seq<NodeKey>, s: set<NodeKey>, r: Option<NodeKey>)
    requires n !in s && FirstIn(path, s, r)
    ensures FirstIn([n] + path, s, r)
  {
    if r.Some? {
      var i :| 0 <= i < |path| && path[i] == r.value && r.value in s &&
        forall j :: 0 <= j < i ==> path[j] !in s;
      assert ([n] + path)[i + 1] == r.value;
    }
  }

  /**
   * `$findMatchingParent(node, $isWrapperBlockNode)`: the nearest wrapper block
   * among the node and its ancestors, or None.
   */
  function FindMatchingParent(doc: Doc, n: NodeKey): (r: Option<NodeKey>)
    requires doc.WellFormed() && n in doc.depth
    ensures FirstIn(AncestorPath(doc, n), doc.wrapperBlocks.Keys, r)
    ensures r.Some? ==> r.value in doc.wrapperBlocks
    decreases doc.depth[n]
  {
    if n in doc.wrapperBlocks then
      assert AncestorPath(doc, n)[0] == n;
      Some(n)
    else if n in doc.parent then
      var up := FindMatchingParent(doc, doc.parent[n]);
      FirstInPrepend(n, AncestorPath(doc, doc.parent[n]), doc.wrapperBlocks.Keys, up);
      up
    else
      None
  }

  /**
   * Which wrapper block a node belongs to depends only on the tree's shape and on
   * which nodes are wrapper blocks, never on the blocks' field values or text.
   */
  lemma {:induction false} MatchIgnoresBlockContents(d1: Doc, d2: Doc, n: NodeKey)
    requires d1.WellFormed() && n in d1.depth
    requires d1.parent == d2.parent && d1.depth == d2.depth
    requires d1.wrapperBlocks.Keys == d2.wrapperBlocks.Keys
    ensures d2.WellFormed() && n in d2.depth
    ensures FindMatchingParent(d1, n) == FindMatchingParent(d2, n)
    decreases d1.depth[n]
  {
    if n !in d1.wrapperBlocks && n in d1.parent {
      MatchIgnoresBlockContents(d1, d2, d1.parent[n]);
    }
  }
}
