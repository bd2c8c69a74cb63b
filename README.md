# Wrapper-block popup and client feature model

A Dafny model of two parts of the Lexical rich-text editor package.

1. **The wrapper-block popup controller** (`BlockEditor`). This is the floating popup that appears while the selection rests inside a wrapper block. Its React state hooks are the fields of the class `WrapperBlockEditor.BlockEditor`.
   - `hideBlockPopup` and `$updateBlockPopup` are methods that set these fields step by step, with the source's early returns.
   - The command handlers and buttons append what they dispatch (`INSERT_WRAPPER_BLOCK_COMMAND` payloads) and drawer toggles to an effect log.
   - Each method is proved against the pure rules in module `BlockPopup`. The key rules are:
     - the selection-homogeneity check;
     - the drawer snapshot `{...fields, text}`;
     - the client-schema key `schemaPath + ".lexical_internal_feature.blocks.lexical_wrapper_blocks." + blockType`;
     - the choice of rectangle: the framework rectangle of the focus node is preferred; otherwise the native range rectangle is used; either way y is raised by 40.
2. **The client feature data model** (`typesClient.ts`), as datatypes in module `ClientFeatures`:
   - `ClientFeature`, `ResolvedClientFeature`, `FeatureProviderClient` (a ready feature or a builder over a `FeatureContext`);
   - the closed six-way plugin position set, with `Plugin` and `SanitizedPlugin` as subset types;
   - `SanitizedClientFeatures`, whose transformer, node and toolbar parts are required, and whose hooks and dynamic groups are lists.

   A load or save hook has the type `SerializedEditorState -> SerializedEditorState`. Small functions state what the doc comments promise:
   - resolving adds a key and an order;
   - providers resolve in the order the server sent them, and each sees the features resolved before it;
   - a slash-menu query yields the static groups plus the dynamic groups for that query.

The document engine is abstracted in module `Document`:
- The tree is a parent map over node keys. A rank that drops towards the root keeps it acyclic.
- Node identity is the key, as in Lexical's `node.is`.
- `$isWrapperBlockNode` and `$isLineBreakNode` are given sets.
- `$findMatchingParent` is the nearest node, among the node itself and its ancestors, that is a wrapper block.
- `getSelectedNode` is the focus node that the range selection carries.

Everything one update reads from the browser is a parameter record `BlockPopup.Env`:
- element rectangles by key;
- whether the popup element is mounted;
- whether the native anchor lies in the root;
- the native range rectangle;
- the active element's class.

## Model

| member | source | states |
|---|---|---|
| Document.FindMatchingParent | packages/richtext-lexical/src/features/blocks/client/plugin/wrapperBlocks/BlockEditor/index.tsx:98 | the result is the first wrapper block on the node's path to the root (the node itself first), or None when no node on that path is one |
| Document.MatchIgnoresBlockContents | packages/richtext-lexical/src/features/blocks/client/plugin/wrapperBlocks/BlockEditor/index.tsx:105 | which wrapper block a node belongs to depends only on the tree shape and on which nodes are wrapper blocks, not on block fields or text |
| BlockPopup.BadNodeIff | packages/richtext-lexical/src/features/blocks/client/plugin/wrapperBlocks/BlockEditor/index.tsx:106-108 | the two-sided identity test is true exactly when the node's wrapper block differs from the focus node's (a node under no block counts as different from an existing focus block) |
| BlockPopup.FindBadNode | packages/richtext-lexical/src/features/blocks/client/plugin/wrapperBlocks/BlockEditor/index.tsx:101-110 | None iff every non-line-break selected node resolves to the focus block; otherwise the first such node, skipping line breaks, that does not |
| BlockPopup.Hide | packages/richtext-lexical/src/features/blocks/client/plugin/wrapperBlocks/BlockEditor/index.tsx:74-84 | hiding clears the active flag, the node, the component, the selected nodes and the drawer data; it keeps the client block |
| BlockPopup.WithText | packages/richtext-lexical/src/features/blocks/client/plugin/wrapperBlocks/BlockEditor/index.tsx:118-124 | the drawer data has every field of the block, with `text` overwritten by the block's text content |
| BlockPopup.StripText | packages/richtext-lexical/src/features/blocks/client/plugin/wrapperBlocks/BlockEditor/index.tsx:313-316 | the copy has no `text` key, and every other key as submitted |
| BlockPopup.StripTextUndoesWithText | packages/richtext-lexical/src/features/blocks/client/plugin/wrapperBlocks/BlockEditor/index.tsx:310-325 | deleting `text` from the drawer data gives back the block's fields when they had no `text` key |
| BlockPopup.ComponentMapPath | packages/richtext-lexical/src/features/blocks/client/plugin/wrapperBlocks/BlockEditor/index.tsx:130 | the key is the schema path, then the wrapper-blocks infix, then the block type |
| BlockPopup.ComponentMapPathInjective | packages/richtext-lexical/src/features/blocks/client/plugin/wrapperBlocks/BlockEditor/index.tsx:130 | within one schema path, different block types get different schema keys |
| BlockPopup.LookupClientBlock | packages/richtext-lexical/src/features/blocks/client/plugin/wrapperBlocks/BlockEditor/index.tsx:132-139 | the result is the first block of the blocks field found under the key; it is absent exactly when that field lists no blocks |
| BlockPopup.ChosenRect | packages/richtext-lexical/src/features/blocks/client/plugin/wrapperBlocks/BlockEditor/index.tsx:151-160 | the framework rectangle of the focus node when it has one, the native range rectangle otherwise |
| BlockPopup.Update | packages/richtext-lexical/src/features/blocks/client/plugin/wrapperBlocks/BlockEditor/index.tsx:86-171 | a non-range selection hides. The popup is active afterwards iff the selection is homogeneous and the popup may stay (not mounted, anchor in root, or focus in the popup input). When active, the node is the focus block, the data is its fields plus text, and the selected nodes are all selection nodes, line breaks included. When inactive, everything is cleared. The client block is looked up only on a homogeneous selection. The placement is the chosen rect with y + 40 only when homogeneous, mounted and anchored in the root. Consistency is kept |
| BlockPopup.UpdateIdempotent | packages/richtext-lexical/src/features/blocks/client/plugin/wrapperBlocks/BlockEditor/index.tsx:86-171 | re-running the update against the same editor state (as the listeners do) changes nothing further |
| BlockPopup.StrayNodeHides | packages/richtext-lexical/src/features/blocks/client/plugin/wrapperBlocks/BlockEditor/index.tsx:101-115 | one selected non-line-break node under no block, or under another block than the focus node's, leaves the popup cleared |
| BlockPopup.RematchByIdentity | packages/richtext-lexical/src/features/blocks/client/plugin/wrapperBlocks/BlockEditor/index.tsx:98-116 | changing block fields or text without changing the nodes keeps homogeneity, activation and the matched node the same |
| BlockPopup.DrawerSubmitPayload | packages/richtext-lexical/src/features/blocks/client/plugin/wrapperBlocks/BlockEditor/index.tsx:310-325 | the INSERT payload holds the submitted data minus only `text` as fields, the submitted `text` as text, and the given selected nodes |
| BlockPopup.UnchangedSubmitRestoresBlock | packages/richtext-lexical/src/features/blocks/client/plugin/wrapperBlocks/BlockEditor/index.tsx:116-128 | for a block with no `text` field of its own, submitting the drawer's initial data unchanged dispatches the block's own fields and text content over the activating selection |
| BlockPopup.UnchangedSubmitDropsOwnText | packages/richtext-lexical/src/features/blocks/client/plugin/wrapperBlocks/BlockEditor/index.tsx:313-316 | for a block with a `text` field of its own (overwritten by the text content at index.tsx:121-124), the unchanged submit dispatches the block's fields without `text`, so they differ from the block's own, and carries the text content as the text |
| BlockPopup.BlockDisplayName | packages/richtext-lexical/src/features/blocks/client/plugin/wrapperBlocks/BlockEditor/index.tsx:259-261 | the translated singular label when it is a non-empty string, else the slug; nothing without a client block |
| BlockPopup.DrawerTitle | packages/richtext-lexical/src/features/blocks/client/plugin/wrapperBlocks/BlockEditor/index.tsx:306-308 | the edit key iff the drawer data has a truthy `id`, else the create key; the label is the display name, or the default wrapper-block label when there is none |
| WrapperBlockEditor.BlockEditor.constructor | packages/richtext-lexical/src/features/blocks/client/plugin/wrapperBlocks/BlockEditor/index.tsx:49-65 | the popup starts inactive, with nothing selected and nothing dispatched |
| WrapperBlockEditor.BlockEditor.HideBlockPopup | packages/richtext-lexical/src/features/blocks/client/plugin/wrapperBlocks/BlockEditor/index.tsx:74-84 | the new state is Hide of the old one: cleared, with the client block kept and nothing dispatched |
| WrapperBlockEditor.BlockEditor.UpdateBlockPopup | packages/richtext-lexical/src/features/blocks/client/plugin/wrapperBlocks/BlockEditor/index.tsx:86-171 | the new state is Update of the old one, and the invariant is kept. It reports reaching its final return iff the selection is homogeneous and the popup element is mounted |
| WrapperBlockEditor.BlockEditor.OnToggleWithModal | packages/richtext-lexical/src/features/blocks/client/plugin/wrapperBlocks/BlockEditor/index.tsx:176-190 | a null payload is not handled and changes nothing. Otherwise it dispatches INSERT with exactly the payload's fields, then re-runs the update, then toggles the drawer, and returns true |
| WrapperBlockEditor.BlockEditor.OnSelectionChange | packages/richtext-lexical/src/features/blocks/client/plugin/wrapperBlocks/BlockEditor/index.tsx:226-233 | re-runs the update and reports the command handled |
| WrapperBlockEditor.BlockEditor.OnEscape | packages/richtext-lexical/src/features/blocks/client/plugin/wrapperBlocks/BlockEditor/index.tsx:234-245 | handled iff the popup was active; then it hides, otherwise nothing changes |
| WrapperBlockEditor.BlockEditor.OnEditClick | packages/richtext-lexical/src/features/blocks/client/plugin/wrapperBlocks/BlockEditor/index.tsx:273-275 | toggles the drawer and changes no state |
| WrapperBlockEditor.BlockEditor.OnTrashClick | packages/richtext-lexical/src/features/blocks/client/plugin/wrapperBlocks/BlockEditor/index.tsx:287-289 | dispatches INSERT with null (the clear sentinel) and changes no state |
| WrapperBlockEditor.BlockEditor.OnDrawerSubmit | packages/richtext-lexical/src/features/blocks/client/plugin/wrapperBlocks/BlockEditor/index.tsx:310-325 | dispatches the drawer payload built from the submitted data and the stored selected nodes, and changes no state; while the popup is hidden the payload carries no selected nodes |
| ClientFeatures.PluginComponent.PropNames | packages/richtext-lexical/src/features/typesClient.ts:44-50 | every plugin component receives `clientProps`; exactly the anchored kind also receives `anchorElem`; no other prop is passed |
| ClientFeatures.AnchorOnlyAtFloatingPosition | packages/richtext-lexical/src/features/typesClient.ts:164-205 | a plugin's component receives `anchorElem` iff it is mounted at `floatingAnchorElem` |
| ClientFeatures.SanitizePlugin | packages/richtext-lexical/src/features/typesClient.ts:164-205 | a sanitized plugin keeps the component and position and adds the key and client props. `desktopOnly` is allowed only at the floating-anchor position (subset type) |
| ClientFeatures.PluginOf | packages/richtext-lexical/src/features/typesClient.ts:164-205 | a sanitized plugin stands for the ClientFeature plugin with its component and position |
| ClientFeatures.SanitizePluginKeepsPlugin | packages/richtext-lexical/src/features/typesClient.ts:164-205 | sanitizing then forgetting the additions gives back the plugin |
| ClientFeatures.ResolveFeature | packages/richtext-lexical/src/features/typesClient.ts:152-155 | the resolved feature is the ready feature unchanged, or the builder's result for the context, plus the key and order from the provider's client props |
| ClientFeatures.ByKey | packages/richtext-lexical/src/features/typesClient.ts:157 | the map of resolved features has exactly the keys of the base map and of the listed features |
| ClientFeatures.ByKeyLatest | packages/richtext-lexical/src/features/typesClient.ts:157 | under a listed feature's key sits that very feature, when no later listed feature has the same key |
| ClientFeatures.ByKeyKeepsBase | packages/richtext-lexical/src/features/typesClient.ts:157 | a key that no listed feature has keeps its value from the base map |
| ClientFeatures.ResolveInOrder | packages/richtext-lexical/src/features/typesClient.ts:31-41 | the providers resolve in the given order, each with exactly the features resolved before it in its context |
| ClientFeatures.ProviderMap | packages/richtext-lexical/src/features/typesClient.ts:33-35 | the provider map has exactly the keys of the providers |
| ClientFeatures.ProviderMapLatest | packages/richtext-lexical/src/features/typesClient.ts:33-35 | under a provider's key sit that provider's client feature props, when no later provider has the same key |
| ClientFeatures.ResolveAll | packages/richtext-lexical/src/features/typesClient.ts:20-22 | resolution starts from the provider map of all the providers and no resolved features; no reordering: as many resolved features as providers, the i-th with the i-th provider's key and order |
| ClientFeatures.ResolveAllSeesPrefix | packages/richtext-lexical/src/features/typesClient.ts:31-41 | the i-th resolved feature is the i-th provider resolved against a context whose resolved features are exactly those before it |
| ClientFeatures.ProvidersVisibleToEveryBuilder | packages/richtext-lexical/src/features/typesClient.ts:33-35 | every builder receives the whole provider map: each provider's key is in it, mapped to that provider's props unless a later provider reuses the key |
| ClientFeatures.EarlierFeaturesAvailable | packages/richtext-lexical/src/features/typesClient.ts:36-37 | every feature sent before another has its key among that feature's resolved features, and that key maps to the earlier resolved feature itself unless a provider in between reuses the key; so dependencies that the server put first are available |
| ClientFeatures.DynamicGroupsFor | packages/richtext-lexical/src/features/typesClient.ts:242-244 | the result holds exactly the groups that some dynamic resolver returns for this query |
| ClientFeatures.SlashMenuGroupsFor | packages/richtext-lexical/src/features/typesClient.ts:235-250 | the static groups come first and are always present; a group is offered iff it is static or a dynamic resolver returns it for the query |
| ClientFeatures.StaticGroupsIgnoreQuery | packages/richtext-lexical/src/features/typesClient.ts:119-123 | the static groups are offered, first, whatever the query |

## Modelling decisions

- A missing client-schema entry is not handled: the lookup at index.tsx:132-138 throws. So `UpdatePre` requires the entry whenever the selection activates the popup; a miss does not fall back to hiding.
- The schema key is `schemaPath.lexical_internal_feature.blocks.lexical_wrapper_blocks.blockType`, as at index.tsx:130.
- The exemption from hiding is the literal class-name test `wraper-block-input`.
- A wrapper block's own `text` field does not survive an unchanged drawer submit. The drawer data overwrites it with the block's text content (index.tsx:121-124), and the submit deletes `text` from the fields (index.tsx:313-316). The model keeps this behaviour.
- Hiding does not reset `clientBlock` (index.tsx:74-84 leaves it alone).

## Left out

- JSX rendering, and the inline opacity/transform styling in `hideBlockPopup` (index.tsx:76-79). `placement` records only the last rectangle passed to the positioner; hiding leaves it as it was.
- `setFloatingElemPositionForLinkEditor` is not part of this model. Neither is `getBoundingClientRect`: rectangles are integer records, and browser floats are not modelled.
- Adding and removing the window resize and scroller scroll listeners (index.tsx:194-216). Those listeners, the update listener and the mount effect all just call `UpdateBlockPopup`.
- Command registration and priority dispatch (`registerCommand`, COMMAND_PRIORITY_HIGH/LOW) belong to Lexical. The handlers are methods returning whether they handled the command. The INSERT_WRAPPER_BLOCK_COMMAND handler that patches the tree is not part of this model. A dispatch is an entry in `effects`, and the editor state the update then reads is the `Env` argument.
- `getTranslation` and `t`: the translation is a function parameter, and the drawer title is the request (key and label) passed to `t`.
- `$findMatchingParent`, `getSelectedNode` and `$isLineBreakNode` are given by the tree model. `$findMatchingParent` is not made to stop at the root node, because the root is never a wrapper block.
- Field values beyond strings, booleans and null are abstract (`Value.Other`): they keep only their template-literal rendering and their truthiness.
- `BlockPopup.LookupClientBlock`: assumes the cast `as BlocksFieldClient` holds, i.e. the first entry is a blocks field, because that is a precondition of the lookup not throwing.
- `ClientFeatures.FeatureContext`: its `featureProviderMap` maps each key to the provider's client feature props, not to the whole provider. Dafny forbids a datatype recursive through a function argument, and a provider's builder takes the context.
- `ClientFeatures.ResolveFeature`: the resolver is not shown, so the key and order are taken from the provider's `clientFeatureProps` (`featureKey`, `order`). Those are the only place the types carry them.
- `ClientFeatures.SlashMenuGroupsFor`: how static and dynamic groups are merged is not shown. The model concatenates them; the contract promises only static-first and membership, not a merge of groups that share a key.
- Building `SanitizedClientFeatures` from resolved features (the aggregation fold, hook-chain order, `enabledFeatures`) and the server-side feature sort are not shown, so they are not modelled.
- ClientFeatures.StaticGroupsIgnoreQuery: slash-menu groups are opaque keys without items, so the per-query filtering of the static groups' items by the query string, keywords, key and display name (typesClient.ts:119-123, 246-247) is not modelled.
- React's deferred state updates: a setter in the component takes effect at the next render, and the handlers read the state of the last render (`isWrapperBlockNode` at index.tsx:237, `selectedNodes` at index.tsx:322). The model assumes a render between any two events, so each handler sees the state the previous one set; an event arriving between a setter and the re-render is not modelled.
- The SDK client, `getNextT` and the page-metadata builders are not part of this model: they are network I/O, i18n initialisation and calls into code outside it.
