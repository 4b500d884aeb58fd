/**
 * The admin settings back end: the theme catalogue built from the files of
 * `assets/build/themes`, and the AJAX handler that validates and stores the
 * selected theme in the option `dm_hcb_selected_theme`.
 *
 * The directory listing, `is_dir`, `is_file` and the nonce verification are
 * inputs; `sanitize_text_field` and `wp_unslash` are taken as the identity.
 */
module Settings {
  import opened Wrappers
  import opened Strings

  /** Where the built theme stylesheets live, below the plugin directory and URL. */
  const ThemesDir := "assets/build/themes/"
  const MinCss := ".min.css"
  const Css := ".css"

  /** One entry of the theme catalogue handed to the admin script. */
  datatype Theme = Theme(slug: string, name: string, url: string, file: string)

  /** What the server knows about the themes directory. */
  datatype Listing = Listing(isDir: bool, files: seq<string>, isFile: string -> bool)

  /** An `admin-ajax.php` request for `hcb_save_theme`. */
  datatype Request = Request(canManageOptions: bool, nonce: Option<string>, theme: Option<string>)

  /** What `wp_send_json_success` / `wp_send_json_error` send back. */
  datatype Response = Saved(selected: string) | Rejected(message: string, status: int)

  // ---- Slugs ----

  lemma MinCssIsCss(f: string)
    requires EndsWithIgnoreCase(f, MinCss)
    ensures EndsWithIgnoreCase(f, Css)
  {
    var tail8 := f[|f| - 8..];
    var tail4 := f[|f| - 4..];
    assert Lower(tail4) == Lower(tail8)[4..];
    assert Lower(MinCss)[4..] == Lower(Css);
  }

  /**
   * `preg_replace('/\.min\.css$|\.css$/i', '', file)`: the leftmost match wins,
   * so a trailing `.min.css` (any case) is removed whole; otherwise a trailing
   * `.css` is removed; otherwise the name is unchanged.
   */
  function ThemeSlug(file: string): (slug: string)
    ensures |slug| <= |file| && slug == file[..|slug|]
    ensures slug == file <==> !EndsWithIgnoreCase(file, Css)
    ensures |slug| == |file| - |MinCss| <==> EndsWithIgnoreCase(file, MinCss)
    ensures |slug| == |file| - |Css| <==> EndsWithIgnoreCase(file, Css) && !EndsWithIgnoreCase(file, MinCss)
  {
    if EndsWithIgnoreCase(file, MinCss) then
      MinCssIsCss(file);
      file[..|file| - |MinCss|]
    else if EndsWithIgnoreCase(file, Css) then file[..|file| - |Css|]
    else file
  }

  /** Whatever the case of `.min.css`, it is stripped whole. */
  lemma SlugOfMinified(s: string, suffix: string)
    requires EqualsIgnoreCase(suffix, MinCss)
    ensures ThemeSlug(s + suffix) == s
  {
  }

  lemma EndsWithMinOfCss(s: string, suffix: string)
    requires |suffix| == 4
    ensures EndsWithIgnoreCase(s + suffix, MinCss) ==> EndsWithIgnoreCase(s, ".min")
  {
    var f := s + suffix;
    if EndsWithIgnoreCase(f, MinCss) {
      assert f[|f| - 8..|f| - 4] == s[|s| - 4..];
      assert Lower(f[|f| - 8..])[..4] == Lower(s[|s| - 4..]);
      assert Lower(MinCss)[..4] == Lower(".min");
    }
  }

  /** A plain `.css` suffix is stripped when the rest does not itself end in `.min`. */
  lemma SlugOfPlain(s: string, suffix: string)
    requires EqualsIgnoreCase(suffix, Css)
    requires !EndsWithIgnoreCase(s, ".min")
    ensures ThemeSlug(s + suffix) == s
  {
    var f := s + suffix;
    assert |suffix| == 4;
    EndsWithMinOfCss(s, suffix);
    assert f[|f| - 4..] == suffix;
    assert f[..|f| - 4] == s;
  }

  // ---- The catalogue ----

  /** The loop body's filter: not `.`/`..`, a regular file, and `/\.css$/i`. */
  predicate Listed(file: string, isFile: string -> bool) {
    file != "." && file != ".." && isFile(file) && EndsWithIgnoreCase(file, Css)
  }

  function Entry(file: string, pluginUrl: string): Theme {
    var slug := ThemeSlug(file);
    Theme(slug, slug, pluginUrl + ThemesDir + file, file)
  }

  /** The themes obtained from files, in listing order. */
  function Catalogue(files: seq<string>, isFile: string -> bool, pluginUrl: string): (themes: seq<Theme>)
    ensures |themes| <= |files|
  {
    if files == [] then []
    else
      var last := files[|files| - 1];
      Catalogue(files[..|files| - 1], isFile, pluginUrl)
        + (if Listed(last, isFile) then [Entry(last, pluginUrl)] else [])
  }

  /** What `get_available_themes` returns for a listing. */
  function AvailableThemes(listing: Listing, pluginUrl: string): (themes: seq<Theme>)
    ensures !listing.isDir ==> themes == []
    ensures |themes| <= |listing.files|
  {
    if listing.isDir then Catalogue(listing.files, listing.isFile, pluginUrl) else []
  }

  /** `get_available_themes`: the directory test, then the `foreach` appending to `$themes`. */
  method GetAvailableThemes(listing: Listing, pluginUrl: string) returns (themes: seq<Theme>)
    ensures themes == AvailableThemes(listing, pluginUrl)
  {
    themes := [];
    if !listing.isDir {
      return;
    }
    var files := listing.files;
    for i := 0 to |files|
      invariant themes == Catalogue(files[..i], listing.isFile, pluginUrl)
    {
      assert files[..i + 1][..i] == files[..i];
      var file := files[i];
      if file == "." || file == ".." {
        continue;
      }
      if listing.isFile(file) && EndsWithIgnoreCase(file, Css) {
        var slug := ThemeSlug(file);
        themes := themes + [Theme(slug, slug, pluginUrl + ThemesDir + file, file)];
      }
    }
    assert files[..|files|] == files;
  }

  /** Listing order is kept: the catalogue of a concatenation is the concatenation of catalogues. */
  lemma {:induction false} CatalogueAppend(a: seq<string>, b: seq<string>, isFile: string -> bool, pluginUrl: string)
    ensures Catalogue(a + b, isFile, pluginUrl) == Catalogue(a, isFile, pluginUrl) + Catalogue(b, isFile, pluginUrl)
    decreases |b|
  {
    if b == [] {
      assert a + b == a;
    } else {
      var b' := b[..|b| - 1];
      assert (a + b)[..|a + b| - 1] == a + b';
      assert (a + b)[|a + b| - 1] == b[|b| - 1];
      CatalogueAppend(a, b', isFile, pluginUrl);
    }
  }

  /** Every catalogue entry comes from a listed file. */
  lemma {:induction false} CatalogueSound(files: seq<string>, isFile: string -> bool, pluginUrl: string, t: Theme)
    requires t in Catalogue(files, isFile, pluginUrl)
    ensures exists i :: 0 <= i < |files| && Listed(files[i], isFile) && t == Entry(files[i], pluginUrl)
    decreases |files|
  {
    var init := files[..|files| - 1];
    if t in Catalogue(init, isFile, pluginUrl) {
      CatalogueSound(init, isFile, pluginUrl, t);
      var i :| 0 <= i < |init| && Listed(init[i], isFile) && t == Entry(init[i], pluginUrl);
      assert files[i] == init[i];
    } else {
      assert Listed(files[|files| - 1], isFile) && t == Entry(files[|files| - 1], pluginUrl);
    }
  }

  /** Every listed file gives a catalogue entry. */
  lemma {:induction false} CatalogueComplete(files: seq<string>, isFile: string -> bool, pluginUrl: string, i: int)
    requires 0 <= i < |files| && Listed(files[i], isFile)
    ensures Entry(files[i], pluginUrl) in Catalogue(files, isFile, pluginUrl)
    decreases |files|
  {
    var init := files[..|files| - 1];
    if i < |init| {
      CatalogueComplete(init, isFile, pluginUrl, i);
      assert init[i] == files[i];
    }
  }

  /** A theme is in the catalogue exactly when some listed file gives it. */
  lemma CatalogueMembers(files: seq<string>, isFile: string -> bool, pluginUrl: string, t: Theme)
    ensures t in Catalogue(files, isFile, pluginUrl) <==>
      exists i :: 0 <= i < |files| && Listed(files[i], isFile) && t == Entry(files[i], pluginUrl)
  {
  }

  /** Every entry is a `.css` file whose name is its slug and whose URL is under the themes directory. */
  lemma EntryShape(files: seq<string>, isFile: string -> bool, pluginUrl: string, t: Theme)
    requires t in Catalogue(files, isFile, pluginUrl)
    ensures isFile(t.file) && EndsWithIgnoreCase(t.file, Css)
    ensures t.name == t.slug && t.slug == ThemeSlug(t.file)
    ensures t.url == pluginUrl + ThemesDir + t.file
  {
  }

  /** A missing themes directory gives an empty catalogue, whatever it would list. */
  lemma NoDirectoryNoThemes(listing: Listing, pluginUrl: string)
    requires !listing.isDir
    ensures AvailableThemes(listing, pluginUrl) == []
  {
  }

  /**
   * There is no de-duplication: `<s>.css` and `<s>.min.css` both give a theme
   * with slug `s`, in listing order.
   */
  lemma BothVariantsListed(s: string, isFile: string -> bool, pluginUrl: string)
    requires isFile(s + Css) && isFile(s + MinCss) && !EndsWithIgnoreCase(s, ".min")
    ensures var themes := Catalogue([s + Css, s + MinCss], isFile, pluginUrl);
      |themes| == 2 && themes[0].slug == s && themes[1].slug == s
      && themes[0].file == s + Css && themes[1].file == s + MinCss
  {
    SlugOfPlain(s, Css);
    SlugOfMinified(s, MinCss);
    MinCssIsCss(s + MinCss);
    assert (s + Css)[|s + Css| - 4..] == Css;
    var files := [s + Css, s + MinCss];
    assert Listed(s + Css, isFile) && Listed(s + MinCss, isFile);
    assert files[..1] == [s + Css];
    assert Catalogue(files[..1], isFile, pluginUrl) == [Entry(s + Css, pluginUrl)];
    assert Catalogue(files, isFile, pluginUrl) == [Entry(s + Css, pluginUrl), Entry(s + MinCss, pluginUrl)];
  }

  /** `github.css` and `github.min.css` are two themes, both with slug `github`. */
  lemma GithubListedTwice(isFile: string -> bool, pluginUrl: string)
    requires isFile("github.css") && isFile("github.min.css")
    ensures var themes := Catalogue(["github.css", "github.min.css"], isFile, pluginUrl);
      |themes| == 2 && themes[0].slug == "github" && themes[1].slug == "github"
  {
    assert "github"[2..] == "thub" && Lower("thub")[0] == 't';
    assert "github" + Css == "github.css" && "github" + MinCss == "github.min.css";
    BothVariantsListed("github", isFile, pluginUrl);
  }

  // ---- The save handler ----

  /** The slugs of the catalogue, in order (the `$slugs` loop). */
  method CollectSlugs(available: seq<Theme>) returns (slugs: seq<string>)
    ensures |slugs| == |available|
    ensures forall i :: 0 <= i < |available| ==> slugs[i] == available[i].slug
  {
    slugs := [];
    for i := 0 to |available|
      invariant |slugs| == i
      invariant forall k :: 0 <= k < i ==> slugs[k] == available[k].slug
    {
      slugs := slugs + [available[i].slug];
    }
  }

  predicate IsAvailable(theme: string, available: seq<Theme>) {
    exists i :: 0 <= i < |available| && available[i].slug == theme
  }

  lemma SlugsMatch(slugs: seq<string>, available: seq<Theme>, theme: string)
    requires |slugs| == |available|
    requires forall i :: 0 <= i < |available| ==> slugs[i] == available[i].slug
    ensures theme in slugs <==> IsAvailable(theme, available)
  {
  }

  /** The response of `ajax_save_theme`, as the ordered chain of checks decides it. */
  function SaveResponse(request: Request, nonceValid: string -> bool, available: seq<Theme>): (response: Response)
    ensures response.Saved? ==> request.canManageOptions && nonceValid(request.nonce.GetOr(""))
    ensures response.Saved? ==> response.selected == request.theme.GetOr("")
    ensures response.Saved? ==> response.selected == "" || IsAvailable(response.selected, available)
  {
    if !request.canManageOptions then Rejected("Forbidden", 403)
    else if !nonceValid(request.nonce.GetOr("")) then Rejected("Invalid nonce", 400)
    else
      var theme := request.theme.GetOr("");
      if theme != "" && !IsAvailable(theme, available) then Rejected("Theme not available", 400)
      else Saved(theme)
  }

  /** The option table entry `dm_hcb_selected_theme`. */
  class OptionStore {
    var selectedTheme: string

    constructor (initial: string)
      ensures selectedTheme == initial
    {
      selectedTheme := initial;
    }
  }

  /**
   * `ajax_save_theme`: each failed check ends the request with an error; only
   * when all pass is the option written and the theme echoed back.
   */
  method AjaxSaveTheme(store: OptionStore, request: Request, nonceValid: string -> bool,
                       listing: Listing, pluginUrl: string) returns (response: Response)
    modifies store
    ensures response == SaveResponse(request, nonceValid, AvailableThemes(listing, pluginUrl))
    ensures store.selectedTheme == (if response.Saved? then response.selected else old(store.selectedTheme))
  {
    if !request.canManageOptions {
      return Rejected("Forbidden", 403);
    }
    var nonce := if request.nonce.Some? then request.nonce.value else "";
    if !nonceValid(nonce) {
      return Rejected("Invalid nonce", 400);
    }
    var theme := if request.theme.Some? then request.theme.value else "";
    var available := GetAvailableThemes(listing, pluginUrl);
    var slugs := CollectSlugs(available);
    SlugsMatch(slugs, available, theme);
    if theme != "" && theme !in slugs {
      return Rejected("Theme not available", 400);
    }
    store.selectedTheme := theme;
    response := Saved(theme);
  }

  // ---- Properties of the save handler ----

  /** Without `manage_options` the request is forbidden, whatever nonce and theme it carries. */
  lemma ForbiddenFirst(request: Request, nonceValid: string -> bool, available: seq<Theme>)
    requires !request.canManageOptions
    ensures SaveResponse(request, nonceValid, available) == Rejected("Forbidden", 403)
    ensures forall n, t :: SaveResponse(Request(false, n, t), nonceValid, available) == Rejected("Forbidden", 403)
  {
  }

  /** A bad nonce is reported before the theme is looked at. */
  lemma NonceBeforeTheme(request: Request, nonceValid: string -> bool, available: seq<Theme>)
    requires request.canManageOptions && !nonceValid(request.nonce.GetOr(""))
    ensures SaveResponse(request, nonceValid, available) == Rejected("Invalid nonce", 400)
    ensures forall t :: SaveResponse(request.(theme := t), nonceValid, available) == Rejected("Invalid nonce", 400)
  {
  }

  /**
   * Past the two checks, the theme is saved exactly when it is empty or the
   * slug of a catalogue entry, and the response echoes it.
   */
  lemma AcceptedThemes(request: Request, nonceValid: string -> bool, available: seq<Theme>)
    requires request.canManageOptions && nonceValid(request.nonce.GetOr(""))
    ensures SaveResponse(request, nonceValid, available).Saved? <==>
      request.theme.GetOr("") == "" || exists t :: t in available && t.slug == request.theme.GetOr("")
    ensures SaveResponse(request, nonceValid, available).Saved? ==>
      SaveResponse(request, nonceValid, available).selected == request.theme.GetOr("")
    ensures !SaveResponse(request, nonceValid, available).Saved? ==>
      SaveResponse(request, nonceValid, available) == Rejected("Theme not available", 400)
  {
  }

  /** A missing `theme` field clears the selection. */
  lemma MissingThemeClears(request: Request, nonceValid: string -> bool, available: seq<Theme>)
    requires request.canManageOptions && nonceValid(request.nonce.GetOr("")) && request.theme == None
    ensures SaveResponse(request, nonceValid, available) == Saved("")
  {
  }

  /** Every saved theme is empty or is the slug of a theme file in the directory. */
  lemma SavedThemeIsListed(request: Request, nonceValid: string -> bool, listing: Listing, pluginUrl: string)
    requires SaveResponse(request, nonceValid, AvailableThemes(listing, pluginUrl)).Saved?
    ensures var s := SaveResponse(request, nonceValid, AvailableThemes(listing, pluginUrl)).selected;
      s == "" || (listing.isDir && exists f :: f in listing.files && Listed(f, listing.isFile) && ThemeSlug(f) == s)
  {
    var s := SaveResponse(request, nonceValid, AvailableThemes(listing, pluginUrl)).selected;
    if s != "" {
      var available := AvailableThemes(listing, pluginUrl);
      var i :| 0 <= i < |available| && available[i].slug == s;
      CatalogueMembers(listing.files, listing.isFile, pluginUrl, available[i]);
      var j :| 0 <= j < |listing.files| && Listed(listing.files[j], listing.isFile)
        && available[i] == Entry(listing.files[j], pluginUrl);
      assert listing.files[j] in listing.files;
    }
  }
}
