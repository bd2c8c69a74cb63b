/**
 * The client-side feature data model of the rich-text editor: what a feature
 * contributes (ClientFeature), a feature once resolved (ResolvedClientFeature), the
 * provider a feature comes from (FeatureProviderClient), plugins and their mount
 * positions, and the sanitized configuration the editor runs on
 * (SanitizedClientFeatures). React components, Lexical editors, node classes,
 * markdown transformers, toolbar and slash-menu groups are opaque named values.
 */
module ClientFeatures {
  import opened Wrappers

  /** A serialized Lexical editor state (its JSON text). */
  datatype SerializedEditorState = SerializedEditorState(json: string)

  /** A load or save hook: from the incoming serialized state to the state to use. */
  type EditorStateHook = SerializedEditorState -> SerializedEditorState

  datatype LexicalEditor = LexicalEditor(id: nat)
  datatype MarkdownTransformer = MarkdownTransformer(name: string)
  /** `Klass<LexicalNode> | LexicalNodeReplacement` */
  datatype NodeRegistration = NodeClass(name: string) | NodeReplacement(replace: string, with: string)
  datatype ToolbarGroup = ToolbarGroup(key: string)
  datatype SlashMenuGroup = SlashMenuGroup(key: string)
  datatype ClientFunction = ClientFunction(name: string)
  datatype ClientEditorConfig = ClientEditorConfig(name: string)

  /** Feature props of an unknown shape, by name. */
  datatype AnyProps = AnyProps(entries: map<string, string>)

  /** A slash-menu group resolver: the groups to offer for the text typed after the slash. */
  type DynamicGroups = (LexicalEditor, string) -> seq<SlashMenuGroup>

  /** The closed set of places a plugin component can be mounted. */
  datatype PluginPosition = AboveContainer | Bottom | Normal | Top | FloatingAnchorElem | BelowContainer

  /**
   * A plugin's React component: `PluginComponent` receives `clientProps` only,
   * `PluginComponentWithAnchor` also receives `anchorElem`.
   */
  datatype PluginComponent = PluginComponent(name: string) | PluginComponentWithAnchor(name: string)
  {
    /** The props the component is rendered with. */
    function PropNames(): (r: set<string>)
      ensures "clientProps" in r
      ensures "anchorElem" in r <==> PluginComponentWithAnchor?
      ensures r <= {"anchorElem", "clientProps"}
    {
      if PluginComponentWithAnchor? then {"anchorElem", "clientProps"} else {"clientProps"}
    }
  }

  /** A component fits a position when exactly the floating-anchor position takes anchored components. */
  predicate Fits(component: PluginComponent, position: PluginPosition) {
    component.PluginComponentWithAnchor? <==> position == FloatingAnchorElem
  }

  /** A plugin of a ClientFeature: one of the six position variants with its component. */
  datatype PluginEntry = PluginEntry(component: PluginComponent, position: PluginPosition)
  type Plugin = p: PluginEntry | Fits(p.component, p.position)
    witness PluginEntry(PluginComponent(""), Normal)

  /** A plugin of the sanitized configuration; only the floating-anchor variant has `desktopOnly`. */
  datatype SanitizedPluginEntry = SanitizedPluginEntry(
    component: PluginComponent,
    clientProps: AnyProps,
    desktopOnly: Option<bool>,
    key: string,
    position: PluginPosition)
  type SanitizedPlugin = p: SanitizedPluginEntry |
    Fits(p.component, p.position) && (p.desktopOnly.Some? ==> p.position == FloatingAnchorElem)
    witness SanitizedPluginEntry(PluginComponent(""), AnyProps(map[]), None, "", Normal)

  /** The sanitized form of a plugin: same component and position, plus a key and the client props. */
  function SanitizePlugin(p: Plugin, key: string, clientProps: AnyProps): (r: SanitizedPlugin)
    ensures r.component == p.component && r.position == p.position
    ensures r.key == key && r.clientProps == clientProps
    ensures r.desktopOnly.None?
  {
    SanitizedPluginEntry(p.component, clientProps, None, key, p.position)
  }

  /** The ClientFeature plugin a sanitized plugin stands for: its component and position. */
  function PluginOf(p: SanitizedPlugin): (r: Plugin)
    ensures r.component == p.component && r.position == p.position
  {
    PluginEntry(p.component, p.position)
  }

  /** Sanitizing loses nothing of the plugin. */
  lemma SanitizePluginKeepsPlugin(p: Plugin, key: string, clientProps: AnyProps)
    ensures PluginOf(SanitizePlugin(p, key, clientProps)) == p
  {
  }

  /** Only a plugin mounted at the floating anchor receives `anchorElem`. */
  lemma AnchorOnlyAtFloatingPosition(p: SanitizedPlugin)
    ensures "anchorElem" in p.component.PropNames() <==> p.position == FloatingAnchorElem
  {
  }

  /** `ClientComponentProps<P>`: the feature's key and order, plus its own props. */
  datatype ClientComponentProps<P> = ClientComponentProps(featureKey: string, order: int, props: P)

  datatype Hooks = Hooks(load: Option<EditorStateHook>, save: Option<EditorStateHook>)
  datatype SlashMenu = SlashMenu(dynamicGroups: Option<DynamicGroups>, groups: Option<seq<SlashMenuGroup>>)
  datatype ToolbarGroups = ToolbarGroups(groups: seq<ToolbarGroup>)

  /** What one feature contributes to the client editor; every part is optional. */
  datatype ClientFeature<P> = ClientFeature(
    hooks: Option<Hooks>,
    markdownTransformers: Option<seq<MarkdownTransformer>>,
    nodes: Option<seq<NodeRegistration>>,
    plugins: Option<seq<Plugin>>,
    sanitizedClientFeatureProps: Option<ClientComponentProps<P>>,
    slashMenu: Option<SlashMenu>,
    toolbarFixed: Option<ToolbarGroups>,
    toolbarInline: Option<ToolbarGroups>)

  /** A ClientFeature together with the key and order it was resolved under. */
  datatype ResolvedClientFeature<P> = ResolvedClientFeature(feature: ClientFeature<P>, key: string, order: int)

  type ResolvedClientFeatureMap = map<string, ResolvedClientFeature<AnyProps>>

  /**
   * What a deferred feature is built from. The provider map gives each provider's
   * client feature props; the providers' own feature builders are not part of it.
   */
  datatype FeatureContext = FeatureContext(
    clientFunctions: map<string, ClientFunction>,
    featureProviderMap: map<string, ClientComponentProps<AnyProps>>,
    resolvedFeatures: ResolvedClientFeatureMap,
    unSanitizedEditorConfig: ClientEditorConfig)

  /** A provider's feature: ready-made, or built from the context. */
  datatype FeatureSource<P> = Ready(feature: ClientFeature<P>) | Deferred(build: FeatureContext -> ClientFeature<P>)

  datatype FeatureProviderClient<U, P> = FeatureProviderClient(
    clientFeatureProps: ClientComponentProps<U>,
    feature: FeatureSource<P>)

  type Provider = FeatureProviderClient<AnyProps, AnyProps>

  /**
   * Resolving a provider: its feature (built from `ctx` when deferred), under the key
   * and order the server assigned it.
   */
  function ResolveFeature(provider: Provider, ctx: FeatureContext): (r: ResolvedClientFeature<AnyProps>)
    ensures r.key == provider.clientFeatureProps.featureKey
    ensures r.order == provider.clientFeatureProps.order
    ensures provider.feature.Ready? ==> r.feature == provider.feature.feature
    ensures provider.feature.Deferred? ==> r.feature == provider.feature.build(ctx)
  {
    var feature := match provider.feature
      case Ready(f) => f
      case Deferred(build) => build(ctx);
    ResolvedClientFeature(feature, provider.clientFeatureProps.featureKey, provider.clientFeatureProps.order)
  }

  /** The resolved features in `rs`, later ones replacing earlier ones with the same key, over `base`. */
  function ByKey(rs: seq<ResolvedClientFeature<AnyProps>>, base: ResolvedClientFeatureMap): (m: ResolvedClientFeatureMap)
    ensures m.Keys == base.Keys + set i | 0 <= i < |rs| :: rs[i].key
    decreases |rs|
  {
    if rs == [] then base
    else
      var m := ByKey(rs[..|rs| - 1], base);
      var last := rs[|rs| - 1];
      assert forall i :: 0 <= i < |rs| - 1 ==> rs[..|rs| - 1][i] == rs[i];
      m[last.key := last]
  }

  /** No feature after the i-th in `rs` has the i-th one's key. */
  predicate LastWithKey(rs: seq<ResolvedClientFeature<AnyProps>>, i: nat)
    requires i < |rs|
  {
    forall j :: i < j < |rs| ==> rs[j].key != rs[i].key
  }

  /** Under a feature's key sits that feature, when no later feature has its key. */
  lemma {:induction false} ByKeyLatest(rs: seq<ResolvedClientFeature<AnyProps>>, base: ResolvedClientFeatureMap, i: nat)
    requires i < |rs| && LastWithKey(rs, i)
    ensures rs[i].key in ByKey(rs, base) && ByKey(rs, base)[rs[i].key] == rs[i]
    decreases |rs|
  {
    if i < |rs| - 1 {
      var init := rs[..|rs| - 1];
      assert init[i] == rs[i];
      assert LastWithKey(init, i) by {
        forall j | i < j < |init| ensures init[j].key != init[i].key {
          assert init[j] == rs[j];
        }
      }
      ByKeyLatest(init, base, i);
    }
  }

  /** A key no listed feature has keeps its value from the base map. */
  lemma {:induction false} ByKeyKeepsBase(rs: seq<ResolvedClientFeature<AnyProps>>, base: ResolvedClientFeatureMap, k: string)
    requires k in base && forall i :: 0 <= i < |rs| ==> rs[i].key != k
    ensures k in ByKey(rs, base) && ByKey(rs, base)[k] == base[k]
    decreases |rs|
  {
    if rs != [] {
      var init := rs[..|rs| - 1];
      assert forall i :: 0 <= i < |init| ==> init[i] == rs[i];
      ByKeyKeepsBase(init, base, k);
    }
  }

  /**
   * The provider map every builder receives: each provider's client feature props
   * under its feature key, a later provider winning over an earlier one.
   */
  function ProviderMap(providers: seq<Provider>): (m: map<string, ClientComponentProps<AnyProps>>)
    ensures m.Keys == set i | 0 <= i < |providers| :: providers[i].clientFeatureProps.featureKey
    decreases |providers|
  {
    if providers == [] then map[]
    else
      var m := ProviderMap(providers[..|providers| - 1]);
      var last := providers[|providers| - 1];
      assert forall i :: 0 <= i < |providers| - 1 ==> providers[..|providers| - 1][i] == providers[i];
      m[last.clientFeatureProps.featureKey := last.clientFeatureProps]
  }

  /** Under a provider's key sit that provider's props, when no later provider has its key. */
  lemma {:induction false} ProviderMapLatest(providers: seq<Provider>, i: nat)
    requires i < |providers| && KeyNotReusedBetween(providers, i, |providers|)
    ensures providers[i].clientFeatureProps.featureKey in ProviderMap(providers)
    ensures ProviderMap(providers)[providers[i].clientFeatureProps.featureKey] == providers[i].clientFeatureProps
    decreases |providers|
  {
    if i < |providers| - 1 {
      var init := providers[..|providers| - 1];
      assert init[i] == providers[i];
      assert KeyNotReusedBetween(init, i, |init|) by {
        forall k | i < k < |init|
          ensures init[k].clientFeatureProps.featureKey != init[i].clientFeatureProps.featureKey
        {
          assert init[k] == providers[k];
        }
      }
      ProviderMapLatest(init, i);
    }
  }

  /**
   * The context resolution starts from: the provider map of all the providers, and no
   * feature resolved yet.
   */
  function StartContext(providers: seq<Provider>, clientFunctions: map<string, ClientFunction>,
                        config: ClientEditorConfig): FeatureContext
  {
    FeatureContext(clientFunctions, ProviderMap(providers), map[], config)
  }

  /** The context the provider after the features `loaded` sees. */
  function ContextAfter(base: FeatureContext, loaded: seq<ResolvedClientFeature<AnyProps>>): FeatureContext {
    base.(resolvedFeatures := ByKey(loaded, base.resolvedFeatures))
  }

  /**
   * Resolves the providers in the order the server sent them; each one sees, as its
   * resolved features, exactly those resolved before it.
   */
  function ResolveInOrder(providers: seq<Provider>, base: FeatureContext,
                          done: seq<ResolvedClientFeature<AnyProps>>): (r: seq<ResolvedClientFeature<AnyProps>>)
    ensures |r| == |done| + |providers| && r[..|done|] == done
    ensures forall i {:trigger providers[i]} :: 0 <= i < |providers| ==>
      r[|done| + i] == ResolveFeature(providers[i], ContextAfter(base, r[..|done| + i]))
    decreases |providers|
  {
    if providers == [] then done
    else
      var next := ResolveFeature(providers[0], ContextAfter(base, done));
      var r := ResolveInOrder(providers[1..], base, done + [next]);
      assert r[..|done| + 1] == done + [next];
      assert r[..|done|] == (done + [next])[..|done|];
      assert forall i :: 1 <= i < |providers| ==> providers[i] == providers[1..][i - 1];
      r
  }

  /** All providers resolved in the server's order, starting from no resolved features. */
  function ResolveAll(providers: seq<Provider>, clientFunctions: map<string, ClientFunction>,
                      config: ClientEditorConfig): (r: seq<ResolvedClientFeature<AnyProps>>)
    ensures |r| == |providers|
    ensures forall i :: 0 <= i < |providers| ==>
      && r[i].key == providers[i].clientFeatureProps.featureKey
      && r[i].order == providers[i].clientFeatureProps.order
  {
    var r := ResolveInOrder(providers, StartContext(providers, clientFunctions, config), []);
    // Rewrites ResolveInOrder's `r[..|done| + i]`, with `done == []`, into the prefix `r[..i]`.
    assert forall i :: 0 <= i < |providers| ==> r[..0 + i] == r[..i];
    r
  }

  /** The i-th provider is built against exactly the features resolved before it. */
  lemma ResolveAllSeesPrefix(providers: seq<Provider>, clientFunctions: map<string, ClientFunction>,
                             config: ClientEditorConfig, i: nat)
    requires i < |providers|
    ensures var base := StartContext(providers, clientFunctions, config);
      ResolveAll(providers, clientFunctions, config)[i]
        == ResolveFeature(providers[i], ContextAfter(base, ResolveAll(providers, clientFunctions, config)[..i]))
  {
    var base := StartContext(providers, clientFunctions, config);
    var r := ResolveAll(providers, clientFunctions, config);
    assert r == ResolveInOrder(providers, base, []);
    // Mentions `providers[i]` to instantiate ResolveInOrder's per-index clause, then
    // rewrites its `r[..0 + i]` into `r[..i]`.
    assert providers[i] == providers[i];
    assert r[..0 + i] == r[..i];
  }

  /**
   * In the map built from the first i features, the j-th one's key is present, and it
   * maps to the j-th feature when none of the features between has that key.
   */
  lemma {:induction false} PrefixHoldsEarlier(rs: seq<ResolvedClientFeature<AnyProps>>, base: ResolvedClientFeatureMap, i: nat, j: nat)
    requires j < i <= |rs|
    ensures rs[j].key in ByKey(rs[..i], base)
    ensures (forall k :: j < k < i ==> rs[k].key != rs[j].key) ==> ByKey(rs[..i], base)[rs[j].key] == rs[j]
  {
    var prefix := rs[..i];
    assert prefix[j] == rs[j];
    if forall k :: j < k < i ==> rs[k].key != rs[j].key {
      assert LastWithKey(prefix, j) by {
        forall k | j < k < |prefix| ensures prefix[k].key != prefix[j].key {
          assert prefix[k] == rs[k];
        }
      }
      ByKeyLatest(prefix, base, j);
    } else {
      assert rs[j].key in set n | 0 <= n < |prefix| :: prefix[n].key;
    }
  }

  /** No provider strictly between the j-th and the i-th has the j-th one's key. */
  predicate KeyNotReusedBetween(providers: seq<Provider>, j: nat, i: nat)
    requires j < i <= |providers|
  {
    forall k :: j < k < i ==> providers[k].clientFeatureProps.featureKey != providers[j].clientFeatureProps.featureKey
  }

  /**
   * Every feature sent before the i-th is already resolved when the i-th is built, and
   * is the feature found under its key unless a provider in between reuses that key; so
   * a server order that puts dependencies first makes every dependency available.
   */
  lemma {:induction false} EarlierFeaturesAvailable(providers: seq<Provider>, clientFunctions: map<string, ClientFunction>,
                                                    config: ClientEditorConfig, i: nat, j: nat)
    requires j < i < |providers|
    ensures var rs := ResolveAll(providers, clientFunctions, config);
      var loaded := ContextAfter(StartContext(providers, clientFunctions, config), rs[..i]).resolvedFeatures;
      && providers[j].clientFeatureProps.featureKey in loaded
      && (KeyNotReusedBetween(providers, j, i) ==> loaded[providers[j].clientFeatureProps.featureKey] == rs[j])
  {
    KeysLoadedBefore(providers, ResolveAll(providers, clientFunctions, config), map[], i, j);
  }

  /**
   * Every builder receives the whole provider map: each provider's key is in it, with
   * that provider's props unless a later provider reuses the key.
   */
  lemma ProvidersVisibleToEveryBuilder(providers: seq<Provider>, clientFunctions: map<string, ClientFunction>,
                                       config: ClientEditorConfig, i: nat, j: nat)
    requires i < |providers| && j < |providers|
    ensures var rs := ResolveAll(providers, clientFunctions, config);
      var seen := ContextAfter(StartContext(providers, clientFunctions, config), rs[..i]).featureProviderMap;
      && providers[j].clientFeatureProps.featureKey in seen
      && (KeyNotReusedBetween(providers, j, |providers|) ==>
            seen[providers[j].clientFeatureProps.featureKey] == providers[j].clientFeatureProps)
  {
    if KeyNotReusedBetween(providers, j, |providers|) {
      ProviderMapLatest(providers, j);
    }
  }

  /** EarlierFeaturesAvailable for any resolved sequence that carries the providers' keys. */
  lemma {:induction false} KeysLoadedBefore(providers: seq<Provider>, rs: seq<ResolvedClientFeature<AnyProps>>,
                                            base: ResolvedClientFeatureMap, i: nat, j: nat)
    requires |rs| == |providers| && j < i < |providers|
    requires forall k :: 0 <= k < |rs| ==> rs[k].key == providers[k].clientFeatureProps.featureKey
    ensures providers[j].clientFeatureProps.featureKey in ByKey(rs[..i], base)
    ensures KeyNotReusedBetween(providers, j, i) ==>
      ByKey(rs[..i], base)[providers[j].clientFeatureProps.featureKey] == rs[j]
  {
    PrefixHoldsEarlier(rs, base, i, j);
    if KeyNotReusedBetween(providers, j, i) {
      forall k | j < k < i ensures rs[k].key != rs[j].key {
        assert rs[k].key == providers[k].clientFeatureProps.featureKey;
      }
    }
  }

  /** The required hook chains of the sanitized configuration. */
  datatype SanitizedHooks = SanitizedHooks(load: seq<EditorStateHook>, save: seq<EditorStateHook>)

  /** The sanitized slash menu: every dynamic-group resolver and every static group. */
  datatype SanitizedSlashMenu = SanitizedSlashMenu(dynamicGroups: seq<DynamicGroups>, groups: seq<SlashMenuGroup>)

  /** The configuration the client editor runs on. */
  datatype SanitizedClientFeatures = SanitizedClientFeatures(
    enabledFeatures: seq<string>,
    hooks: SanitizedHooks,
    markdownTransformers: seq<MarkdownTransformer>,
    nodes: seq<NodeRegistration>,
    plugins: Option<seq<SanitizedPlugin>>,
    slashMenu: SanitizedSlashMenu,
    toolbarFixed: ToolbarGroups,
    toolbarInline: ToolbarGroups)

  /** The groups every dynamic-group resolver offers for the query, resolver by resolver. */
  function DynamicGroupsFor(resolvers: seq<DynamicGroups>, editor: LexicalEditor, query: string): (r: seq<SlashMenuGroup>)
    ensures forall i, g :: 0 <= i < |resolvers| && g in resolvers[i](editor, query) ==> g in r
    ensures forall g :: g in r ==> exists i :: 0 <= i < |resolvers| && g in resolvers[i](editor, query)
    decreases |resolvers|
  {
    if resolvers == [] then []
    else
      var rest := DynamicGroupsFor(resolvers[1..], editor, query);
      assert forall i :: 1 <= i < |resolvers| ==> resolvers[i] == resolvers[1..][i - 1];
      resolvers[0](editor, query) + rest
  }

  /**
   * The slash-menu groups for a query: the static groups, always and first, merged
   * with the groups the dynamic resolvers compute for that query.
   */
  function SlashMenuGroupsFor(menu: SanitizedSlashMenu, editor: LexicalEditor, query: string): (r: seq<SlashMenuGroup>)
    ensures |r| >= |menu.groups| && r[..|menu.groups|] == menu.groups
    ensures forall g :: g in r <==>
      g in menu.groups || exists i :: 0 <= i < |menu.dynamicGroups| && g in menu.dynamicGroups[i](editor, query)
  {
    menu.groups + DynamicGroupsFor(menu.dynamicGroups, editor, query)
  }

  /** The static groups do not depend on the query. */
  lemma StaticGroupsIgnoreQuery(menu: SanitizedSlashMenu, editor: LexicalEditor, q1: string, q2: string)
    ensures SlashMenuGroupsFor(menu, editor, q1)[..|menu.groups|] == SlashMenuGroupsFor(menu, editor, q2)[..|menu.groups|]
  {
  }
}
