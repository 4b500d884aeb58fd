/**
 * The selected-theme stylesheet that the `Assets` class enqueues in each of its
 * three contexts: the front end (`wp_enqueue_scripts`), block assets
 * (`enqueue_block_assets`) and the block editor (`enqueue_block_editor_assets`).
 *
 * `has_block`, `file_exists` and the option table are inputs; the WordPress
 * style registry is a class whose `Enqueue` follows `wp_enqueue_style`.
 */
module Assets {
  import opened Wrappers
  import Settings

  const EditorCss := "editor-css"

  datatype Context = FrontEnd | BlockAssets | Editor

  /** Which of the two built files of a theme is used. */
  datatype Variant = Minified | Plain

  /** A `wp_enqueue_style` call: handle, source URL and dependencies. */
  datatype Style = Style(handle: string, src: string, deps: seq<string>)

  /** PHP's truthiness of a string: `""` and `"0"` are false. */
  predicate PhpTruthy(s: string) {
    s != "" && s != "0"
  }

  function Suffix(v: Variant): string {
    match v
    case Minified => ".min.css"
    case Plain => ".css"
  }

  /** `<base>assets/build/themes/<slug><suffix>`, used both for the existence check and the URL enqueued. */
  function ThemeLocation(base: string, slug: string, v: Variant): string {
    base + Settings.ThemesDir + slug + Suffix(v)
  }

  /** The `if (file_exists($min_path)) … elseif (file_exists($css_path))` choice. */
  function ChooseVariant(slug: string, pluginPath: string, fileExists: string -> bool): (v: Option<Variant>)
    ensures v == Some(Minified) <==> fileExists(ThemeLocation(pluginPath, slug, Minified))
    ensures v == Some(Plain) <==>
      !fileExists(ThemeLocation(pluginPath, slug, Minified)) && fileExists(ThemeLocation(pluginPath, slug, Plain))
  {
    if fileExists(ThemeLocation(pluginPath, slug, Minified)) then Some(Minified)
    else if fileExists(ThemeLocation(pluginPath, slug, Plain)) then Some(Plain)
    else None
  }

  /** The handle each context passes, for each variant. */
  function Handle(ctx: Context, v: Variant): string {
    match ctx
    case FrontEnd => "dm-hcb-highlight-theme"
    case BlockAssets => if v == Minified then "dm-hcb-highlight-theme-block" else "dm_hcb-highlight-theme-block"
    case Editor => "dm-hcb-highlight-theme-editor"
  }

  function Deps(ctx: Context): seq<string> {
    if ctx == Editor then [EditorCss] else []
  }

  /** The front end and block assets look for the block first; the editor does not. */
  predicate Gated(ctx: Context, hasBlock: bool) {
    ctx == Editor || hasBlock
  }

  /** The theme stylesheet a context enqueues, if any. */
  function ThemeStyle(ctx: Context, selected: string, hasBlock: bool, pluginPath: string, pluginUrl: string,
                      fileExists: string -> bool): (style: Option<Style>)
    ensures style.Some? <==>
      (Gated(ctx, hasBlock) && PhpTruthy(selected)
       && (fileExists(ThemeLocation(pluginPath, selected, Minified)) || fileExists(ThemeLocation(pluginPath, selected, Plain))))
    ensures style.Some? ==> style.value.deps == Deps(ctx)
  {
    if !Gated(ctx, hasBlock) || !PhpTruthy(selected) then None
    else
      match ChooseVariant(selected, pluginPath, fileExists)
      case None => None
      case Some(v) => Some(Style(Handle(ctx, v), ThemeLocation(pluginUrl, selected, v), Deps(ctx)))
  }

  /** `wp_register_style` leaves a handle that is already registered untouched. */
  function Registered(registered: map<string, Style>, style: Style): map<string, Style> {
    if style.handle in registered then registered else registered[style.handle := style]
  }

  /** `wp_enqueue_style` queues each handle once. */
  function Queued(queue: seq<string>, style: Style): seq<string> {
    if style.handle in queue then queue else queue + [style.handle]
  }

  /** The registered styles and the queue of handles to print. */
  class StyleRegistry {
    var registered: map<string, Style>
    var queue: seq<string>

    ghost predicate Valid()
      reads this
    {
      (forall h :: h in queue ==> h in registered)
      && (forall i, j :: 0 <= i < j < |queue| ==> queue[i] != queue[j])
    }

    constructor ()
      ensures Valid() && registered == map[] && queue == []
    {
      registered := map[];
      queue := [];
    }

    /**
     * `wp_enqueue_style` with a source: a handle already registered keeps its
     * first registration, and a handle already queued is not queued again.
     */
    method Enqueue(style: Style)
      requires Valid()
      modifies this
      ensures Valid()
      ensures registered == Registered(old(registered), style)
      ensures queue == Queued(old(queue), style)
    {
      if style.handle !in registered {
        registered := registered[style.handle := style];
      }
      if style.handle !in queue {
        queue := queue + [style.handle];
      }
    }
  }

  /** The selected-theme block shared by the three hooks. */
  method EnqueueTheme(registry: StyleRegistry, ctx: Context, store: Settings.OptionStore, hasBlock: bool,
                      pluginPath: string, pluginUrl: string, fileExists: string -> bool)
    requires registry.Valid()
    modifies registry
    ensures registry.Valid()
    ensures var style := ThemeStyle(ctx, store.selectedTheme, hasBlock, pluginPath, pluginUrl, fileExists);
      registry.registered == (if style.None? then old(registry.registered) else Registered(old(registry.registered), style.value))
    ensures var style := ThemeStyle(ctx, store.selectedTheme, hasBlock, pluginPath, pluginUrl, fileExists);
      registry.queue == (if style.None? then old(registry.queue) else Queued(old(registry.queue), style.value))
  {
    if ctx != Editor && !hasBlock {
      return;
    }
    var selected := store.selectedTheme;
    if selected == "" || selected == "0" {
      return;
    }
    var minPath := pluginPath + Settings.ThemesDir + selected + ".min.css";
    var cssPath := pluginPath + Settings.ThemesDir + selected + ".css";
    if fileExists(minPath) {
      registry.Enqueue(Style(Handle(ctx, Minified), pluginUrl + Settings.ThemesDir + selected + ".min.css", Deps(ctx)));
    } else if fileExists(cssPath) {
      registry.Enqueue(Style(Handle(ctx, Plain), pluginUrl + Settings.ThemesDir + selected + ".css", Deps(ctx)));
    }
  }

  /** `enqueue_assets`: the theme part, behind `has_block`. */
  method EnqueueAssets(registry: StyleRegistry, store: Settings.OptionStore, hasBlock: bool,
                       pluginPath: string, pluginUrl: string, fileExists: string -> bool)
    requires registry.Valid()
    modifies registry
    ensures registry.Valid()
    ensures var style := ThemeStyle(FrontEnd, store.selectedTheme, hasBlock, pluginPath, pluginUrl, fileExists);
      registry.registered == (if style.None? then old(registry.registered) else Registered(old(registry.registered), style.value))
    ensures var style := ThemeStyle(FrontEnd, store.selectedTheme, hasBlock, pluginPath, pluginUrl, fileExists);
      registry.queue == (if style.None? then old(registry.queue) else Queued(old(registry.queue), style.value))
  {
    EnqueueTheme(registry, FrontEnd, store, hasBlock, pluginPath, pluginUrl, fileExists);
  }

  /** `enqueue_block_assets`: the theme part, behind `has_block`. */
  method EnqueueBlockAssets(registry: StyleRegistry, store: Settings.OptionStore, hasBlock: bool,
                            pluginPath: string, pluginUrl: string, fileExists: string -> bool)
    requires registry.Valid()
    modifies registry
    ensures registry.Valid()
    ensures var style := ThemeStyle(BlockAssets, store.selectedTheme, hasBlock, pluginPath, pluginUrl, fileExists);
      registry.registered == (if style.None? then old(registry.registered) else Registered(old(registry.registered), style.value))
    ensures var style := ThemeStyle(BlockAssets, store.selectedTheme, hasBlock, pluginPath, pluginUrl, fileExists);
      registry.queue == (if style.None? then old(registry.queue) else Queued(old(registry.queue), style.value))
  {
    EnqueueTheme(registry, BlockAssets, store, hasBlock, pluginPath, pluginUrl, fileExists);
  }

  /** `enqueue_block_editor_assets`: the theme part, with no `has_block` test. */
  method EnqueueBlockEditorAssets(registry: StyleRegistry, store: Settings.OptionStore,
                                  pluginPath: string, pluginUrl: string, fileExists: string -> bool)
    requires registry.Valid()
    modifies registry
    ensures registry.Valid()
    ensures var style := ThemeStyle(Editor, store.selectedTheme, false, pluginPath, pluginUrl, fileExists);
      registry.registered == (if style.None? then old(registry.registered) else Registered(old(registry.registered), style.value))
    ensures var style := ThemeStyle(Editor, store.selectedTheme, false, pluginPath, pluginUrl, fileExists);
      registry.queue == (if style.None? then old(registry.queue) else Queued(old(registry.queue), style.value))
  {
    EnqueueTheme(registry, Editor, store, false, pluginPath, pluginUrl, fileExists);
  }

  // ---- Properties of the choice ----

  /** An empty (or `"0"`) selection enqueues no theme stylesheet in any context. */
  lemma NoSelectionNoStyle(ctx: Context, selected: string, hasBlock: bool, pluginPath: string, pluginUrl: string,
                           fileExists: string -> bool)
    requires selected == "" || selected == "0"
    ensures ThemeStyle(ctx, selected, hasBlock, pluginPath, pluginUrl, fileExists) == None
  {
  }

  /** When the minified file exists it is used, whether or not the plain one exists too. */
  lemma MinifiedPreferred(ctx: Context, selected: string, hasBlock: bool, pluginPath: string, pluginUrl: string,
                          fileExists: string -> bool)
    requires Gated(ctx, hasBlock) && PhpTruthy(selected)
    requires fileExists(pluginPath + "assets/build/themes/" + selected + ".min.css")
    ensures ThemeStyle(ctx, selected, hasBlock, pluginPath, pluginUrl, fileExists)
         == Some(Style(Handle(ctx, Minified), pluginUrl + "assets/build/themes/" + selected + ".min.css", Deps(ctx)))
  {
  }

  /** Without the minified file, the plain one is used if it exists; with neither, nothing is enqueued. */
  lemma PlainFallback(ctx: Context, selected: string, hasBlock: bool, pluginPath: string, pluginUrl: string,
                      fileExists: string -> bool)
    requires Gated(ctx, hasBlock) && PhpTruthy(selected)
    requires !fileExists(pluginPath + "assets/build/themes/" + selected + ".min.css")
    ensures fileExists(pluginPath + "assets/build/themes/" + selected + ".css") ==>
      ThemeStyle(ctx, selected, hasBlock, pluginPath, pluginUrl, fileExists)
        == Some(Style(Handle(ctx, Plain), pluginUrl + "assets/build/themes/" + selected + ".css", Deps(ctx)))
    ensures !fileExists(pluginPath + "assets/build/themes/" + selected + ".css") ==>
      ThemeStyle(ctx, selected, hasBlock, pluginPath, pluginUrl, fileExists) == None
  {
  }

  /** The front end and block assets enqueue only on pages with the block; the editor ignores the block test. */
  lemma BlockGating(selected: string, pluginPath: string, pluginUrl: string, fileExists: string -> bool)
    ensures ThemeStyle(FrontEnd, selected, false, pluginPath, pluginUrl, fileExists) == None
    ensures ThemeStyle(BlockAssets, selected, false, pluginPath, pluginUrl, fileExists) == None
    ensures ThemeStyle(Editor, selected, false, pluginPath, pluginUrl, fileExists)
         == ThemeStyle(Editor, selected, true, pluginPath, pluginUrl, fileExists)
  {
  }

  /** Any theme stylesheet enqueued depends on `editor-css` in the editor and on nothing elsewhere. */
  lemma StyleDependencies(ctx: Context, selected: string, hasBlock: bool, pluginPath: string, pluginUrl: string,
                          fileExists: string -> bool)
    requires ThemeStyle(ctx, selected, hasBlock, pluginPath, pluginUrl, fileExists).Some?
    ensures ThemeStyle(ctx, selected, hasBlock, pluginPath, pluginUrl, fileExists).value.deps
         == (if ctx == Editor then ["editor-css"] else [])
  {
  }

  /**
   * The front end and the editor use one handle for both variants; block
   * assets use `dm-hcb-highlight-theme-block` for the minified file and
   * `dm_hcb-highlight-theme-block` for the plain one.
   */
  lemma HandlesPerContext()
    ensures Handle(FrontEnd, Minified) == Handle(FrontEnd, Plain) == "dm-hcb-highlight-theme"
    ensures Handle(Editor, Minified) == Handle(Editor, Plain) == "dm-hcb-highlight-theme-editor"
    ensures Handle(BlockAssets, Minified) == "dm-hcb-highlight-theme-block"
    ensures Handle(BlockAssets, Plain) == "dm_hcb-highlight-theme-block"
    ensures Handle(BlockAssets, Minified) != Handle(BlockAssets, Plain)
  {
  }

  /** The three contexts never share a handle, so each theme stylesheet is registered separately. */
  lemma ContextsUseOwnHandles(c1: Context, v1: Variant, c2: Context, v2: Variant)
    requires c1 != c2
    ensures Handle(c1, v1) != Handle(c2, v2)
  {
  }

  /**
   * A theme file named `0.css` is accepted by the save handler, yet since
   * `"0"` is falsy in PHP no context ever enqueues it.
   */
  lemma ZeroThemeSavedButNeverEnqueued(request: Settings.Request, nonceValid: string -> bool,
                                        listing: Settings.Listing, pluginUrl: string,
                                        ctx: Context, hasBlock: bool, pluginPath: string, fileExists: string -> bool)
    requires request.canManageOptions && nonceValid(request.nonce.GetOr("")) && request.theme == Some("0")
    requires listing.isDir && listing.files == ["0.css"] && listing.isFile("0.css")
    ensures Settings.SaveResponse(request, nonceValid, Settings.AvailableThemes(listing, pluginUrl)) == Settings.Saved("0")
    ensures ThemeStyle(ctx, "0", hasBlock, pluginPath, pluginUrl, fileExists) == None
  {
    Settings.SlugOfPlain("0", Settings.Css);
    assert "0" + Settings.Css == "0.css";
    assert Settings.Listed("0.css", listing.isFile) by {
      assert "0.css"[1..] == Settings.Css;
    }
    var available := Settings.AvailableThemes(listing, pluginUrl);
    assert listing.files[..0] == [] && listing.files[0] == "0.css";
    assert Settings.Catalogue(listing.files, listing.isFile, pluginUrl)
        == Settings.Catalogue(listing.files[..0], listing.isFile, pluginUrl) + [Settings.Entry("0.css", pluginUrl)];
    assert available == [Settings.Entry("0.css", pluginUrl)];
    assert available[0].slug == "0";
    assert Settings.IsAvailable("0", available);
  }
}
