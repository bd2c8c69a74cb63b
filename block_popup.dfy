/**
 * The state of the wrapper-block popup (the `BlockEditor` component) and the pure
 * rules that re-derive it from the editor selection: the selection-homogeneity
 * check, the field snapshot shown in the drawer, the client-schema lookup, the
 * choice of rectangle, and the payloads the component dispatches.
 */
module BlockPopup {
  import opened Wrappers
  import opened Document

  /** The class name of the popup's own input; focus there keeps the popup open. */
  const InputClassName := "wraper-block-input"

  /** The segment between the schema path and the block type in the client schema map key. */
  const WrapperBlocksInfix := ".lexical_internal_feature.blocks.lexical_wrapper_blocks."

  /** How far the chosen rectangle is moved down (its y raised by this) before positioning. */
  const RectLift := 40

  /** The client-side block schema; `singularLabel` is `labels?.singular`. */
  datatype ClientBlock = ClientBlock(slug: string, singularLabel: Option<string>)

  /** A client schema entry: a blocks field (with its blocks) or any other field. */
  datatype ClientField = BlocksField(blocks: seq<ClientBlock>) | OtherField(name: string)

  /** The parts of the editor configuration the popup reads. */
  datatype EditorConfig = EditorConfig(
    schemaPath: string,
    featureClientSchemaMap: map<string, map<string, seq<ClientField>>>)

  /** A rendered wrapper-block component (opaque here). */
  datatype Component = Component(name: string)

  /**
   * Everything one run of the update reads from the editor and the browser:
   * the tree and selection, the framework element rectangles by node key
   * (`editor.getElementByKey(key)?.getBoundingClientRect()`), whether the popup
   * element is mounted (`editorRef.current !== null`), whether the native
   * selection's anchor lies inside the editor root, the native range rectangle,
   * and the class name of `document.activeElement` (None when it is null).
   */
  datatype Env = Env(
    doc: Doc,
    selection: Selection,
    elementRects: map<NodeKey, Rect>,
    editorMounted: bool,
    anchorInRoot: bool,
    nativeRangeRect: Rect,
    activeElementClass: Option<string>)

  /**
   * The component's state. `placement` is the last rectangle handed to the
   * floating-element positioner.
   */
  datatype PopupState = PopupState(
    isWrapperBlockNode: bool,
    wrapperBlockNode: Option<NodeKey>,
    stateData: Option<Fields>,
    selectedNodes: seq<NodeKey>,
    clientBlock: Option<ClientBlock>,
    wrapperBlockComponent: Option<Component>,
    placement: Option<Rect>)

  /** The state on first render. */
  const Initial := PopupState(false, None, None, [], None, None, None)

  /** The INSERT_WRAPPER_BLOCK_COMMAND payload: `null` (clear) or a field patch. */
  datatype InsertPayload =
    | ClearBlock
    | ApplyBlock(fields: Fields, selectedNodes: seq<NodeKey>, text: Option<Value>)

  /** The TOGGLE_WRAPPER_BLOCK_WITH_MODAL_COMMAND payload (when not null). */
  datatype TogglePayload = TogglePayload(fields: InsertPayload)

  /** What the component asks of the outside world, in order. */
  datatype Effect = DispatchInsert(payload: InsertPayload) | ToggleDrawer

  /** Nothing is shown and nothing is kept. */
  predicate Cleared(s: PopupState) {
    && !s.isWrapperBlockNode
    && s.wrapperBlockNode.None?
    && s.wrapperBlockComponent.None?
    && s.selectedNodes == []
    && s.stateData.None?
  }

  /** The invariant every reachable state keeps. */
  predicate Consistent(s: PopupState) {
    && (s.isWrapperBlockNode <==> s.wrapperBlockNode.Some?)
    && (s.isWrapperBlockNode <==> s.stateData.Some?)
    && (!s.isWrapperBlockNode ==> s.selectedNodes == [])
    && s.wrapperBlockComponent.None?
    && (s.stateData.Some? ==> "text" in s.stateData.value)
  }

  /** `hideBlockPopup`: clears the popup; leaves the client block and the last placement alone. */
  function Hide(s: PopupState): (r: PopupState)
    ensures Cleared(r) && Consistent(r)
    ensures r.clientBlock == s.clientBlock && r.placement == s.placement
  {
    s.(isWrapperBlockNode := false, wrapperBlockNode := None, wrapperBlockComponent := None,
       selectedNodes := [], stateData := None)
  }

  /** JavaScript truthiness of a field value. */
  predicate Truthy(v: Value) {
    match v
    case Str(s) => s != ""
    case Bool(b) => b
    case Null => false
    case Other(_, t) => t
  }

  /** What a template literal `${v}` renders for a field value, or for an absent one. */
  function Interpolate(v: Option<Value>): string {
    match v
    case None => "undefined"
    case Some(Str(s)) => s
    case Some(Bool(b)) => if b then "true" else "false"
    case Some(Null) => "null"
    case Some(Other(shown, _)) => shown
  }

  /** The value of field `k`, or None when absent. */
  function Get(data: Fields, k: string): Option<Value> {
    if k in data then Some(data[k]) else None
  }

  /** `{ ...fields, text }`: the fields with `text` set to the block's text content. */
  function WithText(fields: Fields, text: string): (r: Fields)
    ensures "text" in r && r["text"] == Str(text)
    ensures forall k :: k != "text" ==> Get(r, k) == Get(fields, k)
  {
    fields["text" := Str(text)]
  }

  /** A copy of the submitted data with only the `text` key deleted. */
  function StripText(data: Fields): (r: Fields)
    ensures "text" !in r
    ensures forall k :: k != "text" ==> Get(r, k) == Get(data, k)
  {
    data - {"text"}
  }

  /** The drawer shows `{...fields, text}`; deleting `text` again gives back fields that had none. */
  lemma StripTextUndoesWithText(fields: Fields, text: string)
    requires "text" !in fields
    ensures StripText(WithText(fields, text)) == fields
  {
    var r := StripText(WithText(fields, text));
    forall k ensures k in r <==> k in fields {
      assert Get(r, k) == Get(fields, k);
    }
    forall k | k in r ensures r[k] == fields[k] {
      assert Get(r, k) == Get(fields, k);
    }
  }

  /** The nearest wrapper block of the selection's focus node. */
  function FocusParent(env: Env): Option<NodeKey>
    requires env.selection.RangeSelection? && env.doc.WellFormed() && SelectionInDoc(env.doc, env.selection)
  {
    FindMatchingParent(env.doc, env.selection.selectedNode)
  }

  /**
   * A node disagrees with the focus node's wrapper block `f`: `f` exists and is not
   * the node's block, or the node's block exists and is not `f`.
   */
  predicate IsBadNode(doc: Doc, n: NodeKey, f: Option<NodeKey>)
    requires doc.WellFormed() && n in doc.depth
  {
    var w := FindMatchingParent(doc, n);
    (f.Some? && !(w.Some? && f.value == w.value)) || (w.Some? && !(f.Some? && w.value == f.value))
  }

  /** Identity comparison in both directions amounts to: the node's block is not `f`. */
  lemma BadNodeIff(doc: Doc, n: NodeKey, f: Option<NodeKey>)
    requires doc.WellFormed() && n in doc.depth
    ensures IsBadNode(doc, n, f) <==> FindMatchingParent(doc, n) != f
  {
  }

  /**
   * `nodes.filter(n => !$isLineBreakNode(n)).find(bad)`: the first node that is not a
   * line break and does not resolve to the wrapper block `f`.
   */
  function FindBadNode(doc: Doc, nodes: seq<NodeKey>, f: Option<NodeKey>): (r: Option<NodeKey>)
    requires doc.WellFormed() && forall i :: 0 <= i < |nodes| ==> nodes[i] in doc.depth
    ensures r.None? <==>
      forall i :: 0 <= i < |nodes| && nodes[i] !in doc.lineBreaks ==> FindMatchingParent(doc, nodes[i]) == f
    ensures r.Some? ==>
      (exists i :: 0 <= i < |nodes| && nodes[i] == r.value &&
        r.value !in doc.lineBreaks && FindMatchingParent(doc, r.value) != f &&
        forall j :: 0 <= j < i && nodes[j] !in doc.lineBreaks ==> FindMatchingParent(doc, nodes[j]) == f)
  {
    if |nodes| == 0 then None
    else if nodes[0] !in doc.lineBreaks && IsBadNode(doc, nodes[0], f) then
      BadNodeIff(doc, nodes[0], f);
      Some(nodes[0])
    else
      BadNodeIff(doc, nodes[0], f);
      var rest := FindBadNode(doc, nodes[1..], f);
      assert forall i :: 1 <= i < |nodes| ==> nodes[i] == nodes[1..][i - 1];
      if rest.Some? then
        var i :| 0 <= i < |nodes[1..]| && nodes[1..][i] == rest.value &&
          rest.value !in doc.lineBreaks && FindMatchingParent(doc, rest.value) != f &&
          forall j :: 0 <= j < i && nodes[1..][j] !in doc.lineBreaks ==> FindMatchingParent(doc, nodes[1..][j]) == f;
        assert nodes[i + 1] == rest.value;
        rest
      else
        rest
  }

  /**
   * The selection is a range selection, its focus node lies in a wrapper block P, and
   * every selected node that is not a line break lies in that same block P.
   */
  predicate Homogeneous(env: Env)
    requires env.doc.WellFormed() && SelectionInDoc(env.doc, env.selection)
  {
    && env.selection.RangeSelection?
    && FocusParent(env).Some?
    && forall i :: 0 <= i < |env.selection.nodes| && env.selection.nodes[i] !in env.doc.lineBreaks ==>
         FindMatchingParent(env.doc, env.selection.nodes[i]) == FocusParent(env)
  }

  /** The drawer's data for the focus node's block: its fields with `text` set to its text content. */
  function ActivatedData(env: Env): Fields
    requires env.doc.WellFormed() && SelectionInDoc(env.doc, env.selection) && Homogeneous(env)
  {
    var block := env.doc.wrapperBlocks[FocusParent(env).value];
    WithText(block.fields, block.textContent)
  }

  /** `${data.blockType}` */
  function BlockTypeOf(data: Fields): string {
    Interpolate(Get(data, "blockType"))
  }

  /** The client schema map key of a wrapper block type. */
  function ComponentMapPath(schemaPath: string, blockType: string): (r: string)
    ensures |r| == |schemaPath| + |WrapperBlocksInfix| + |blockType|
    ensures r[..|schemaPath|] == schemaPath
    ensures r[|schemaPath|..|schemaPath| + |WrapperBlocksInfix|] == WrapperBlocksInfix
    ensures r[|schemaPath| + |WrapperBlocksInfix|..] == blockType
  {
    schemaPath + WrapperBlocksInfix + blockType
  }

  /** Within one schema path, distinct block types have distinct schema keys. */
  lemma ComponentMapPathInjective(schemaPath: string, t1: string, t2: string)
    requires ComponentMapPath(schemaPath, t1) == ComponentMapPath(schemaPath, t2)
    ensures t1 == t2
  {
    var n := |schemaPath| + |WrapperBlocksInfix|;
    assert t1 == ComponentMapPath(schemaPath, t1)[n..];
  }

  /**
   * The lookup reaches a blocks field without throwing: the `blocks` schema map has the
   * key and its first entry is a blocks field.
   */
  predicate SchemaEntryPresent(config: EditorConfig, path: string) {
    && "blocks" in config.featureClientSchemaMap
    && path in config.featureClientSchemaMap["blocks"]
    && |config.featureClientSchemaMap["blocks"][path]| > 0
    && config.featureClientSchemaMap["blocks"][path][0].BlocksField?
  }

  /** The blocks of the field found under `path`. */
  function SchemaBlocks(config: EditorConfig, path: string): seq<ClientBlock>
    requires SchemaEntryPresent(config, path)
  {
    config.featureClientSchemaMap["blocks"][path][0].blocks
  }

  /** `blocksField.blocks[0]`: the first block, or undefined when the field lists none. */
  function LookupClientBlock(config: EditorConfig, path: string): (r: Option<ClientBlock>)
    requires SchemaEntryPresent(config, path)
    ensures r.None? <==> SchemaBlocks(config, path) == []
    ensures r.Some? ==> r.value == SchemaBlocks(config, path)[0]
  {
    var blocks := SchemaBlocks(config, path);
    if |blocks| > 0 then Some(blocks[0]) else None
  }

  /** What the update needs from its caller: a well-formed tree and, when it activates, a schema entry. */
  predicate UpdatePre(config: EditorConfig, env: Env) {
    && env.doc.WellFormed()
    && SelectionInDoc(env.doc, env.selection)
    && (Homogeneous(env) ==>
          SchemaEntryPresent(config, ComponentMapPath(config.schemaPath, BlockTypeOf(ActivatedData(env)))))
  }

  /** The client block the update looks up for an activating selection. */
  function ActivatedClientBlock(config: EditorConfig, env: Env): Option<ClientBlock>
    requires UpdatePre(config, env) && Homogeneous(env)
  {
    LookupClientBlock(config, ComponentMapPath(config.schemaPath, BlockTypeOf(ActivatedData(env))))
  }

  /**
   * The rectangle to position against: the framework's rectangle of the focus node
   * when it has one, the native range rectangle otherwise.
   */
  function ChosenRect(env: Env): (r: Rect)
    requires env.selection.RangeSelection?
    ensures env.selection.selectedNode in env.elementRects ==> r == env.elementRects[env.selection.selectedNode]
    ensures env.selection.selectedNode !in env.elementRects ==> r == env.nativeRangeRect
  {
    var focus := env.selection.selectedNode;
    if focus in env.elementRects then env.elementRects[focus] else env.nativeRangeRect
  }

  /** An activated popup stays: it is not mounted, the anchor is in the root, or focus is in its input. */
  predicate StaysVisible(env: Env) {
    !env.editorMounted || env.anchorInRoot || env.activeElementClass == Some(InputClassName)
  }

  /** `$updateBlockPopup`: the state after one run against `env`. */
  function Update(s: PopupState, config: EditorConfig, env: Env): (r: PopupState)
    requires UpdatePre(config, env)
    ensures !env.selection.RangeSelection? ==> r == Hide(s)
    ensures r.isWrapperBlockNode <==> Homogeneous(env) && StaysVisible(env)
    ensures r.isWrapperBlockNode ==>
      && r.wrapperBlockNode == FocusParent(env)
      && r.stateData == Some(ActivatedData(env))
      && r.selectedNodes == env.selection.nodes
    ensures !r.isWrapperBlockNode ==> Cleared(r)
    ensures r.clientBlock == if Homogeneous(env) then ActivatedClientBlock(config, env) else s.clientBlock
    ensures r.placement ==
      if Homogeneous(env) && env.editorMounted && env.anchorInRoot
      then Some(ChosenRect(env).(y := ChosenRect(env).y + RectLift))
      else s.placement
    ensures r.wrapperBlockComponent == if r.isWrapperBlockNode then s.wrapperBlockComponent else None
    ensures s.wrapperBlockComponent.None? ==> Consistent(r)
  {
    if !env.selection.RangeSelection? then Hide(s)
    else
      var f := FocusParent(env);
      if f.None? || FindBadNode(env.doc, env.selection.nodes, f).Some? then Hide(s)
      else
        var data := ActivatedData(env);
        var active := s.(wrapperBlockNode := f, stateData := Some(data), isWrapperBlockNode := true,
                         selectedNodes := env.selection.nodes,
                         clientBlock := LookupClientBlock(config, ComponentMapPath(config.schemaPath, BlockTypeOf(data))));
        if !env.editorMounted then active
        else if env.anchorInRoot then
          var rect := ChosenRect(env);
          active.(placement := Some(rect.(y := rect.y + RectLift)))
        else if env.activeElementClass == Some(InputClassName) then active
        else Hide(active)
  }

  /** Running the update twice against the same editor state changes nothing more. */
  lemma UpdateIdempotent(s: PopupState, config: EditorConfig, env: Env)
    requires UpdatePre(config, env)
    ensures Update(Update(s, config, env), config, env) == Update(s, config, env)
  {
  }

  /**
   * A selected node outside every wrapper block, or inside another wrapper block than
   * the focus node's, hides the popup.
   */
  lemma StrayNodeHides(s: PopupState, config: EditorConfig, env: Env, i: nat)
    requires UpdatePre(config, env) && env.selection.RangeSelection?
    requires i < |env.selection.nodes| && env.selection.nodes[i] !in env.doc.lineBreaks
    requires FindMatchingParent(env.doc, env.selection.nodes[i]) != FocusParent(env)
    ensures Cleared(Update(s, config, env))
  {
  }

  /**
   * Editing a block's fields or text without replacing its node leaves the match
   * unchanged: the same node is found, by identity, and the popup stays on it.
   */
  lemma {:induction false} RematchByIdentity(s: PopupState, config: EditorConfig, env1: Env, env2: Env)
    requires UpdatePre(config, env1) && UpdatePre(config, env2)
    requires env2 == env1.(doc := env2.doc)
    requires env1.doc.parent == env2.doc.parent && env1.doc.depth == env2.doc.depth
    requires env1.doc.lineBreaks == env2.doc.lineBreaks
    requires env1.doc.wrapperBlocks.Keys == env2.doc.wrapperBlocks.Keys
    ensures Homogeneous(env1) <==> Homogeneous(env2)
    ensures Update(s, config, env1).isWrapperBlockNode == Update(s, config, env2).isWrapperBlockNode
    ensures Update(s, config, env1).wrapperBlockNode == Update(s, config, env2).wrapperBlockNode
  {
    if env1.selection.RangeSelection? {
      var nodes := env1.selection.nodes;
      MatchIgnoresBlockContents(env1.doc, env2.doc, env1.selection.selectedNode);
      forall i | 0 <= i < |nodes|
        ensures FindMatchingParent(env1.doc, nodes[i]) == FindMatchingParent(env2.doc, nodes[i])
      {
        MatchIgnoresBlockContents(env1.doc, env2.doc, nodes[i]);
      }
    }
  }

  /**
   * The drawer submission payload: every submitted key but `text` as the fields, the
   * submitted `text` (undefined when absent) as the text, and the stored selection.
   */
  function DrawerSubmitPayload(data: Fields, selectedNodes: seq<NodeKey>): (p: InsertPayload)
    ensures p.ApplyBlock?
    ensures "text" !in p.fields
    ensures forall k :: k != "text" ==> Get(p.fields, k) == Get(data, k)
    ensures p.text == Get(data, "text")
    ensures p.selectedNodes == selectedNodes
  {
    ApplyBlock(StripText(data), selectedNodes, Get(data, "text"))
  }

  /**
   * Submitting the drawer's initial data unchanged patches the block with its own
   * fields and text content, over the nodes the popup was opened for.
   */
  lemma {:induction false} UnchangedSubmitRestoresBlock(s: PopupState, config: EditorConfig, env: Env)
    requires UpdatePre(config, env) && Homogeneous(env) && StaysVisible(env)
    requires "text" !in env.doc.wrapperBlocks[FocusParent(env).value].fields
    ensures var r := Update(s, config, env);
      var block := env.doc.wrapperBlocks[FocusParent(env).value];
      DrawerSubmitPayload(r.stateData.value, r.selectedNodes)
        == ApplyBlock(block.fields, env.selection.nodes, Some(Str(block.textContent)))
  {
    var block := env.doc.wrapperBlocks[FocusParent(env).value];
    StripTextUndoesWithText(block.fields, block.textContent);
  }

  /**
   * A block with a `text` field of its own does not get it back: the drawer data
   * replaces it with the text content, and the submit strips `text` from the fields.
   */
  lemma UnchangedSubmitDropsOwnText(s: PopupState, config: EditorConfig, env: Env)
    requires UpdatePre(config, env) && Homogeneous(env) && StaysVisible(env)
    requires "text" in env.doc.wrapperBlocks[FocusParent(env).value].fields
    ensures var r := Update(s, config, env);
      var block := env.doc.wrapperBlocks[FocusParent(env).value];
      var p := DrawerSubmitPayload(r.stateData.value, r.selectedNodes);
      && p.fields != block.fields
      && p.fields == block.fields - {"text"}
      && p.text == Some(Str(block.textContent))
  {
  }

  /** The drawer title is a translation request: a key plus the label to insert. */
  datatype TitleLabel = Named(name: string) | Translated(key: string)
  datatype TitleRequest = TitleRequest(key: string, caption: TitleLabel)

  const EditTitleKey := "lexical:blocks:inlineBlocks:edit"
  const CreateTitleKey := "lexical:blocks:inlineBlocks:create"
  const DefaultLabelKey := "lexical:blocks:wrapperBlocks:label"

  /**
   * `blockDisplayName`: the translated singular label when it is a non-empty string,
   * otherwise the block's slug; nothing when there is no client block.
   */
  function BlockDisplayName(clientBlock: Option<ClientBlock>, translate: string -> string): (r: Option<string>)
    ensures r.None? <==> clientBlock.None?
    ensures clientBlock.Some? && clientBlock.value.singularLabel.GetOr("") != "" ==>
      r == Some(translate(clientBlock.value.singularLabel.value))
    ensures clientBlock.Some? && clientBlock.value.singularLabel.GetOr("") == "" ==>
      r == Some(clientBlock.value.slug)
  {
    match clientBlock
    case None => None
    case Some(b) =>
      if b.singularLabel.Some? && b.singularLabel.value != "" then Some(translate(b.singularLabel.value))
      else Some(b.slug)
  }

  /**
   * The drawer title: the edit key when the drawer data has a truthy `id`, the create
   * key otherwise; labelled with the display name, or the default label when there is none.
   */
  function DrawerTitle(stateData: Option<Fields>, displayName: Option<string>): (t: TitleRequest)
    ensures t.key == EditTitleKey || t.key == CreateTitleKey
    ensures t.key == EditTitleKey <==> stateData.Some? && "id" in stateData.value && Truthy(stateData.value["id"])
    ensures displayName.Some? ==> t.caption == Named(displayName.value)
    ensures displayName.None? ==> t.caption == Translated(DefaultLabelKey)
  {
    var hasId := match stateData
      case None => false
      case Some(data) => "id" in data && Truthy(data["id"]);
    TitleRequest(if hasId then EditTitleKey else CreateTitleKey,
                 match displayName
                 case Some(name) => Named(name)
                 case None => Translated(DefaultLabelKey))
  }
}
