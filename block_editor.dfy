/**
 * The `BlockEditor` component as an object: its React state hooks are fields that
 * the handlers set step by step, and everything it dispatches or toggles is
 * appended to `effects`. Each handler is specified by the pure rules of BlockPopup.
 */
module WrapperBlockEditor {
  import opened Wrappers
  import opened Document
  import opened BlockPopup

  class BlockEditor {
    const config: EditorConfig

    var isWrapperBlockNode: bool
    var wrapperBlockNode: Option<NodeKey>
    var stateData: Option<Fields>
    var selectedNodes: seq<NodeKey>
    var clientBlock: Option<ClientBlock>
    var wrapperBlockComponent: Option<Component>
    var placement: Option<Rect>

    /** The commands dispatched and drawer toggles requested so far, oldest first. */
    var effects: seq<Effect>

    /** The component state as one value. */
    function State(): PopupState
      reads this
    {
      PopupState(isWrapperBlockNode, wrapperBlockNode, stateData, selectedNodes,
                 clientBlock, wrapperBlockComponent, placement)
    }

    ghost predicate Valid()
      reads this
    {
      Consistent(State())
    }

    constructor (config: EditorConfig)
      ensures this.config == config
      ensures State() == Initial && Valid()
      ensures effects == []
    {
      this.config := config;
      isWrapperBlockNode := false;
      wrapperBlockNode := None;
      stateData := None;
      selectedNodes := [];
      clientBlock := None;
      wrapperBlockComponent := None;
      placement := None;
      effects := [];
    }

    /** `hideBlockPopup` */
    method HideBlockPopup()
      modifies this
      ensures State() == Hide(old(State()))
      ensures Cleared(State()) && clientBlock == old(clientBlock) && Valid()
      ensures effects == old(effects)
    {
      isWrapperBlockNode := false;
      wrapperBlockNode := None;
      wrapperBlockComponent := None;
      selectedNodes := [];
      stateData := None;
    }

    /**
     * `$updateBlockPopup`; `completed` is true when it runs to its final `return true`
     * rather than one of its early returns.
     */
    method UpdateBlockPopup(env: Env) returns (completed: bool)
      requires UpdatePre(config, env)
      modifies this
      ensures State() == Update(old(State()), config, env)
      ensures old(Valid()) ==> Valid()
      ensures completed <==> Homogeneous(env) && env.editorMounted
      ensures effects == old(effects)
    {
      if !env.selection.RangeSelection? {
        HideBlockPopup();
        return false;
      }
      var focusNode := env.selection.selectedNode;
      var selectedNodeDomRect: Option<Rect> := None;
      if focusNode in env.elementRects {
        selectedNodeDomRect := Some(env.elementRects[focusNode]);
      }
      var focusParent := FindMatchingParent(env.doc, focusNode);
      var badNode := FindBadNode(env.doc, env.selection.nodes, focusParent);
      if focusParent.None? || badNode.Some? {
        HideBlockPopup();
        return false;
      }
      wrapperBlockNode := focusParent;
      var block := env.doc.wrapperBlocks[focusParent.value];
      var data := WithText(block.fields, block.textContent);
      stateData := Some(data);
      isWrapperBlockNode := true;
      selectedNodes := env.selection.nodes;

      var path := ComponentMapPath(config.schemaPath, BlockTypeOf(data));
      var clientSchemaMap: map<string, seq<ClientField>> := config.featureClientSchemaMap["blocks"];
      var blocksField: ClientField := clientSchemaMap[path][0];
      clientBlock := if |blocksField.blocks| > 0 then Some(blocksField.blocks[0]) else None;

      if !env.editorMounted {
        return false;
      }
      if env.anchorInRoot {
        if selectedNodeDomRect.None? {
          selectedNodeDomRect := Some(env.nativeRangeRect);
        }
        var rect := selectedNodeDomRect.value;
        placement := Some(rect.(y := rect.y + RectLift));
      } else if env.activeElementClass != Some(InputClassName) {
        HideBlockPopup();
      }
      return true;
    }

    /**
     * TOGGLE_WRAPPER_BLOCK_WITH_MODAL_COMMAND handler: a null payload is not handled;
     * otherwise it dispatches INSERT with the payload's fields, re-runs the update and
     * toggles the drawer.
     */
    method OnToggleWithModal(payload: Option<TogglePayload>, env: Env) returns (handled: bool)
      requires payload.Some? ==> UpdatePre(config, env)
      modifies this
      ensures handled <==> payload.Some?
      ensures !handled ==> State() == old(State()) && effects == old(effects)
      ensures handled ==> State() == Update(old(State()), config, env)
      ensures handled ==> effects == old(effects) + [DispatchInsert(payload.value.fields), ToggleDrawer]
      ensures old(Valid()) ==> Valid()
    {
      if payload.None? {
        return false;
      }
      effects := effects + [DispatchInsert(payload.value.fields)];
      var _ := UpdateBlockPopup(env);
      effects := effects + [ToggleDrawer];
      return true;
    }

    /** SELECTION_CHANGE_COMMAND handler: re-runs the update and reports the command handled. */
    method OnSelectionChange(env: Env) returns (handled: bool)
      requires UpdatePre(config, env)
      modifies this
      ensures handled
      ensures State() == Update(old(State()), config, env)
      ensures effects == old(effects)
      ensures old(Valid()) ==> Valid()
    {
      var _ := UpdateBlockPopup(env);
      return true;
    }

    /** KEY_ESCAPE_COMMAND handler: hides and handles the key only while the popup is active. */
    method OnEscape() returns (handled: bool)
      modifies this
      ensures handled == old(isWrapperBlockNode)
      ensures handled ==> State() == Hide(old(State()))
      ensures !handled ==> State() == old(State())
      ensures effects == old(effects)
      ensures old(Valid()) ==> Valid()
    {
      if isWrapperBlockNode {
        HideBlockPopup();
        return true;
      }
      return false;
    }

    /** The edit button toggles the drawer. */
    method OnEditClick()
      modifies this
      ensures State() == old(State())
      ensures effects == old(effects) + [ToggleDrawer]
    {
      effects := effects + [ToggleDrawer];
    }

    /** The trash button dispatches INSERT with null, the clear sentinel. */
    method OnTrashClick()
      modifies this
      ensures State() == old(State())
      ensures effects == old(effects) + [DispatchInsert(ClearBlock)]
    {
      effects := effects + [DispatchInsert(ClearBlock)];
    }

    /** `handleDrawerSubmit`: dispatches INSERT with the submitted data minus `text`, its text and the stored selection. */
    method OnDrawerSubmit(data: Fields)
      requires Valid()
      modifies this
      ensures State() == old(State()) && Valid()
      ensures effects == old(effects) + [DispatchInsert(DrawerSubmitPayload(data, old(selectedNodes)))]
      ensures !isWrapperBlockNode ==> DrawerSubmitPayload(data, old(selectedNodes)).selectedNodes == []
    {
      var bareFields := StripText(data);
      effects := effects + [DispatchInsert(ApplyBlock(bareFields, selectedNodes, Get(data, "text")))];
    }
  }
}
