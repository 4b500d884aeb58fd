/**
 * The admin settings page script (`admin.js`): the theme options offered in
 * the theme control, the preview `<link id="hcb-preview-theme">` that shows
 * the chosen theme, and the page state `theme`, `originalTheme`, `saving`,
 * `msg` with the save, reset and clear actions. The code preview on the same
 * page uses the shared highlight wrapper.
 *
 * The `fetch` round trip is split into the click (`BeginSave`) and the arrival
 * of the reply (`FinishSave`); the reply itself is an input.
 */
module Admin {
  import opened Wrappers
  import Highlight
  import Settings

  /** An entry of `HCB_ADMIN.themes`: a bare slug, or a record whose fields may be missing. */
  datatype ThemeItem =
    | Named(slug: string)
    | Record(slugField: Option<string>, nameField: Option<string>, urlField: Option<string>, fileField: Option<string>)

  /** The object `wp_localize_script` hands to the page, or the built-in default. */
  datatype AdminData = AdminData(themes: seq<ThemeItem>, selected: Option<string>, ajaxUrl: string, nonce: string)

  /** `window.HCB_ADMIN || { themes: [], selected: '', ajax_url: '', nonce: '', … }`. */
  function PageData(localized: Option<AdminData>): AdminData {
    localized.GetOr(AdminData([], Some(""), "", ""))
  }

  /** A JavaScript string that may be `undefined`, used in a boolean position. */
  predicate Truthy(s: Option<string>) {
    s.Some? && s.value != ""
  }

  /** `s || fallback`. */
  function Or(s: Option<string>, fallback: string): (r: string)
    ensures Truthy(s) ==> r == s.value
    ensures !Truthy(s) ==> r == fallback
  {
    if Truthy(s) then s.value else fallback
  }

  /** How the server's catalogue entries arrive on the page. */
  function FromServer(t: Settings.Theme): ThemeItem {
    Record(Some(t.slug), Some(t.name), Some(t.url), Some(t.file))
  }

  // ---- Theme options ----

  datatype ThemeOption = ThemeOption(value: string, caption: string)

  /** `t.file.replace(/\.min\.css$|\.css$/i, '')`, the same stripping the server does. */
  function StrippedFile(file: Option<string>, otherwise: string): string {
    if Truthy(file) then Settings.ThemeSlug(file.value) else otherwise
  }

  /** The option for one theme; its value and caption rules are `OptionValueFallback` and `CaptionPresent`. */
  function OptionFor(t: ThemeItem): ThemeOption {
    match t
    case Named(s) => ThemeOption(s, s)
    case Record(slug, name, _, file) =>
      var value := Or(slug, Or(name, StrippedFile(file, "")));
      var caption := Or(name, StrippedFile(file, value));
      ThemeOption(value, if caption != "" then caption else value)
  }

  /** `themeOptions`: the `Default / None` entry, then one entry per theme. */
  function ThemeOptions(themes: seq<ThemeItem>): (options: seq<ThemeOption>)
    ensures |options| == |themes| + 1
    ensures options[0] == ThemeOption("", "Default / None")
    ensures forall i :: 0 <= i < |themes| ==> options[i + 1] == OptionFor(themes[i])
  {
    [ThemeOption("", "Default / None")] + seq(|themes|, i requires 0 <= i < |themes| => OptionFor(themes[i]))
  }

  /** The option value falls back from `slug` to `name` to the file name with its suffix stripped. */
  lemma OptionValueFallback(slug: Option<string>, name: Option<string>, url: Option<string>, file: Option<string>)
    ensures var v := OptionFor(Record(slug, name, url, file)).value;
      (Truthy(slug) ==> v == slug.value)
      && (!Truthy(slug) && Truthy(name) ==> v == name.value)
      && (!Truthy(slug) && !Truthy(name) && Truthy(file) ==> v == Settings.ThemeSlug(file.value))
      && (!Truthy(slug) && !Truthy(name) && !Truthy(file) ==> v == "")
  {
  }

  /** An option's caption is empty only when its value is. */
  lemma CaptionPresent(t: ThemeItem)
    ensures OptionFor(t).caption == "" ==> OptionFor(t).value == ""
  {
  }

  /** For the server's catalogue every option value is the entry's slug, in order. */
  lemma CatalogueOptionsAreSlugs(files: seq<string>, isFile: string -> bool, pluginUrl: string)
    ensures var themes := Settings.Catalogue(files, isFile, pluginUrl);
      forall i :: 0 <= i < |themes| ==> ThemeOptions(ServerItems(themes))[i + 1].value == themes[i].slug
  {
  }

  /** The page's view of a catalogue. */
  function ServerItems(themes: seq<Settings.Theme>): (items: seq<ThemeItem>)
    ensures |items| == |themes|
    ensures forall i :: 0 <= i < |themes| ==> items[i] == FromServer(themes[i])
  {
    seq(|themes|, i requires 0 <= i < |themes| => FromServer(themes[i]))
  }

  /** Every theme the page offers for the server's catalogue is one the save handler accepts. */
  lemma OfferedThemesAreAccepted(listing: Settings.Listing, pluginUrl: string, i: int,
                                 request: Settings.Request, nonceValid: string -> bool)
    requires 0 <= i < |Settings.AvailableThemes(listing, pluginUrl)|
    requires request.canManageOptions && nonceValid(request.nonce.GetOr(""))
    requires request.theme == Some(ThemeOptions(ServerItems(Settings.AvailableThemes(listing, pluginUrl)))[i + 1].value)
    ensures Settings.SaveResponse(request, nonceValid, Settings.AvailableThemes(listing, pluginUrl)).Saved?
  {
    var themes := Settings.AvailableThemes(listing, pluginUrl);
    var t := themes[i];
    assert ThemeOptions(ServerItems(themes))[i + 1] == OptionFor(FromServer(t));
    Settings.EntryShape(listing.files, listing.isFile, pluginUrl, t);
    assert request.theme == Some(t.slug);
    assert t in themes;
    Settings.AcceptedThemes(request, nonceValid, themes);
  }

  // ---- The preview link ----

  /** `t.slug ? t.slug : t` as compared with a string: a record without a slug matches nothing. */
  function Key(t: ThemeItem): (key: Option<string>)
    ensures t.Named? ==> key == Some(t.slug)
    ensures t.Record? ==> (key.Some? <==> Truthy(t.slugField)) && (key.Some? ==> key == t.slugField)
  {
    match t
    case Named(s) => Some(s)
    case Record(slug, _, _, _) => if Truthy(slug) then slug else None
  }

  /** `themes.find(…)`: the first theme whose key is the slug. */
  function FindTheme(themes: seq<ThemeItem>, slug: string): (found: Option<nat>)
    ensures found.Some? ==> found.value < |themes| && Key(themes[found.value]) == Some(slug)
    ensures found.Some? ==> forall k :: 0 <= k < found.value ==> Key(themes[k]) != Some(slug)
    ensures found.None? ==> forall k :: 0 <= k < |themes| ==> Key(themes[k]) != Some(slug)
    decreases |themes|
  {
    if themes == [] then None
    else if Key(themes[0]) == Some(slug) then Some(0)
    else
      match FindTheme(themes[1..], slug)
      case None => None
      case Some(k) => Some(k + 1)
  }

  /** `theme.url || (theme.file ? ajax_url + '?file=' + theme.file : null)`; a bare string has neither. */
  function ThemeHref(t: ThemeItem, ajaxUrl: string): (href: Option<string>)
    ensures t.Named? ==> href.None?
    ensures t.Record? && Truthy(t.urlField) ==> href == t.urlField
    ensures t.Record? && !Truthy(t.urlField) && Truthy(t.fileField) ==> href == Some(ajaxUrl + "?file=" + t.fileField.value)
    ensures t.Record? && !Truthy(t.urlField) && !Truthy(t.fileField) ==> href.None?
  {
    match t
    case Named(_) => None
    case Record(_, _, url, file) =>
      if Truthy(url) then url
      else if Truthy(file) then Some(ajaxUrl + "?file=" + file.value)
      else None
  }

  /** The href the preview link should have for a slug, or `None` for no link. */
  function PreviewHref(themeSlug: string, themes: seq<ThemeItem>, ajaxUrl: string): (href: Option<string>)
    ensures themeSlug == "" ==> href.None?
    ensures FindTheme(themes, themeSlug).None? ==> href.None?
    ensures href.Some? ==> href.value != "" && exists k :: 0 <= k < |themes| && Key(themes[k]) == Some(themeSlug)
  {
    if themeSlug == "" then None
    else
      match FindTheme(themes, themeSlug)
      case None => None
      case Some(k) =>
        var href := ThemeHref(themes[k], ajaxUrl);
        if Truthy(href) then href else None
  }

  function LinkFor(href: Option<string>): seq<string> {
    if href.Some? then [href.value] else []
  }

  /** The `<head>` elements with id `hcb-preview-theme`, by their href, and how many links were appended. */
  class DocumentHead {
    var previewLinks: seq<string>
    ghost var appended: nat

    ghost predicate Valid()
      reads this
    {
      |previewLinks| <= 1
    }

    constructor ()
      ensures Valid() && previewLinks == [] && appended == 0
    {
      previewLinks := [];
      appended := 0;
    }

    /** Removes `document.getElementById('hcb-preview-theme')` if there is one. */
    method RemoveExisting()
      requires Valid()
      modifies this
      ensures previewLinks == [] && appended == old(appended)
    {
      if |previewLinks| > 0 {
        previewLinks := previewLinks[1..];
      }
    }

    /**
     * `applyPreviewTheme`: afterwards there is one link with the theme's href,
     * or none; an existing link is reused and a new one is appended only when
     * there was none.
     */
    method ApplyPreviewTheme(themeSlug: string, themes: seq<ThemeItem>, ajaxUrl: string)
      requires Valid()
      modifies this
      ensures Valid()
      ensures previewLinks == LinkFor(PreviewHref(themeSlug, themes, ajaxUrl))
      ensures appended == old(appended) + (if old(previewLinks) == [] && previewLinks != [] then 1 else 0)
    {
      if themeSlug == "" {
        RemoveExisting();
        return;
      }
      var found := FindTheme(themes, themeSlug);
      if found.None? {
        RemoveExisting();
        return;
      }
      var theme := themes[found.value];
      var href: Option<string> := None;
      if theme.Record? {
        if Truthy(theme.urlField) {
          href := theme.urlField;
        } else if Truthy(theme.fileField) {
          href := Some(ajaxUrl + "?file=" + theme.fileField.value);
        }
      }
      if !Truthy(href) {
        RemoveExisting();
        return;
      }
      if |previewLinks| > 0 {
        if previewLinks[0] != href.value {
          previewLinks := [href.value];
        }
        return;
      }
      previewLinks := [href.value];
      appended := appended + 1;
    }
  }

  /** A falsy slug means no preview link. */
  lemma NoSlugNoLink(themes: seq<ThemeItem>, ajaxUrl: string)
    ensures PreviewHref("", themes, ajaxUrl) == None
  {
  }

  /** A slug that is no theme's key means no preview link. */
  lemma UnknownSlugNoLink(themeSlug: string, themes: seq<ThemeItem>, ajaxUrl: string)
    requires forall k :: 0 <= k < |themes| ==> Key(themes[k]) != Some(themeSlug)
    ensures PreviewHref(themeSlug, themes, ajaxUrl) == None
  {
  }

  /**
   * For the first theme with that slug, the link points at its `url`, or
   * failing that at `ajax_url?file=<file>`, or there is no link.
   */
  lemma LinkOfFirstMatch(themeSlug: string, themes: seq<ThemeItem>, ajaxUrl: string, k: nat)
    requires themeSlug != "" && k < |themes| && Key(themes[k]) == Some(themeSlug)
    requires forall j :: 0 <= j < k ==> Key(themes[j]) != Some(themeSlug)
    requires themes[k].Record?
    ensures var t := themes[k];
      PreviewHref(themeSlug, themes, ajaxUrl)
        == if Truthy(t.urlField) then t.urlField
           else if Truthy(t.fileField) then Some(ajaxUrl + "?file=" + t.fileField.value)
           else None
  {
  }

  /** A bare-string theme has no stylesheet to link, so selecting it removes the preview. */
  lemma BareSlugHasNoLink(themeSlug: string, themes: seq<ThemeItem>, ajaxUrl: string, k: nat)
    requires k < |themes| && themes[k] == Named(themeSlug)
    requires forall j :: 0 <= j < k ==> Key(themes[j]) != Some(themeSlug)
    ensures PreviewHref(themeSlug, themes, ajaxUrl) == None
  {
  }

  // ---- The page state ----

  datatype NoticeKind = SuccessNotice | ErrorNotice
  datatype Notice = Notice(kind: NoticeKind, text: string)

  /** What the `fetch` call produced: the parsed body (`null` as `None`), or a thrown error. */
  datatype JsonReply = JsonReply(success: bool, dataMessage: Option<string>, message: Option<string>)
  datatype Reply = Parsed(json: Option<JsonReply>) | Thrown(error: string)

  /** `wp_send_json_success` / `wp_send_json_error` as the page parses them. */
  function JsonOf(response: Settings.Response): JsonReply {
    match response
    case Saved(_) => JsonReply(true, None, None)
    case Rejected(message, _) => JsonReply(false, Some(message), None)
  }

  predicate Succeeded(reply: Reply) {
    reply.Parsed? && reply.json.Some? && reply.json.value.success
  }

  /** The notice shown once the reply is in. */
  function SaveNotice(reply: Reply): (n: Notice)
    ensures n.kind == SuccessNotice <==> Succeeded(reply)
    ensures Succeeded(reply) ==> n.text == "Theme saved."
    ensures reply.Thrown? ==> n.text == reply.error
    ensures reply.Parsed? && !Succeeded(reply) ==>
      n.text == (if reply.json.Some? then Or(reply.json.value.dataMessage, Or(reply.json.value.message, "Could not save theme"))
                 else "Could not save theme")
  {
    if Succeeded(reply) then Notice(SuccessNotice, "Theme saved.")
    else if reply.Thrown? then Notice(ErrorNotice, reply.error)
    else
      var json := reply.json;
      Notice(ErrorNotice, if json.Some? then Or(json.value.dataMessage, Or(json.value.message, "Could not save theme"))
                    else "Could not save theme")
  }

  /** The handler's own message reaches the page: each refusal is shown as its message. */
  lemma ServerMessageShown(response: Settings.Response)
    ensures response.Saved? ==> SaveNotice(Parsed(Some(JsonOf(response)))) == Notice(SuccessNotice, "Theme saved.")
    ensures response.Rejected? && response.message != "" ==>
      SaveNotice(Parsed(Some(JsonOf(response)))) == Notice(ErrorNotice, response.message)
  {
  }

  /** Whatever the request, the page shows "Theme saved." or one of the handler's three refusals. */
  lemma SaveOutcomesOnPage(request: Settings.Request, nonceValid: string -> bool, available: seq<Settings.Theme>)
    ensures SaveNotice(Parsed(Some(JsonOf(Settings.SaveResponse(request, nonceValid, available)))))
      in {Notice(SuccessNotice, "Theme saved."), Notice(ErrorNotice, "Forbidden"), Notice(ErrorNotice, "Invalid nonce"),
          Notice(ErrorNotice, "Theme not available")}
  {
  }

  /** The `AdminSettings` component's state and the preview link it drives. */
  class AdminSettings {
    const data: AdminData
    const head: DocumentHead
    var theme: string
    var originalTheme: string
    var saving: bool
    var msg: Option<Notice>
    var content: string
    var language: string

    /** The effect on `theme` keeps the preview link in step with the selection. */
    ghost predicate Valid()
      reads this, head
    {
      head.Valid() && head.previewLinks == LinkFor(PreviewHref(theme, data.themes, data.ajaxUrl))
    }

    /** The initial state, followed by the mount-time effect that applies the preview. */
    constructor (localized: Option<AdminData>, head: DocumentHead)
      requires head.Valid()
      modifies head
      ensures Valid() && data == PageData(localized) && this.head == head
      ensures theme == Or(data.selected, "") && originalTheme == theme
      ensures !saving && msg == None
      ensures content == "function hello() {\n\tconsole.log(\"hello world\");\n}\n" && language == "javascript"
    {
      var data := PageData(localized);
      this.data := data;
      this.head := head;
      theme := if Truthy(data.selected) then data.selected.value else "";
      originalTheme := if Truthy(data.selected) then data.selected.value else "";
      saving := false;
      msg := None;
      content := "function hello() {\n\tconsole.log(\"hello world\");\n}\n";
      language := "javascript";
      new;
      head.ApplyPreviewTheme(theme, data.themes, data.ajaxUrl);
    }

    function CanSave(): bool
      reads this
    {
      !saving
    }

    /** The Reset button is disabled while saving or when nothing was changed. */
    function CanReset(): (enabled: bool)
      reads this
      ensures enabled ==> !saving && theme != originalTheme
      ensures !saving && theme != originalTheme ==> enabled
    {
      !saving && theme != originalTheme
    }

    /** The theme control's `onChange`, and the Clear button with `""`; the preview follows. */
    method SetTheme(value: string)
      requires Valid()
      modifies this, head
      ensures Valid()
      ensures theme == value
      ensures originalTheme == old(originalTheme) && saving == old(saving) && msg == old(msg)
      ensures content == old(content) && language == old(language)
    {
      theme := value;
      head.ApplyPreviewTheme(theme, data.themes, data.ajaxUrl);
    }

    /** The Clear button, enabled while no save is under way: no theme selected, and the preview link is gone. */
    method Clear()
      requires Valid() && CanSave()
      modifies this, head
      ensures Valid()
      ensures theme == "" && head.previewLinks == []
      ensures originalTheme == old(originalTheme) && saving == old(saving) && msg == old(msg)
      ensures content == old(content) && language == old(language)
    {
      SetTheme("");
    }

    /** The click on Save: the theme sent is the one selected at that moment. */
    method BeginSave() returns (sent: string)
      requires Valid() && CanSave()
      modifies this
      ensures Valid()
      ensures sent == theme && saving && msg == None
      ensures theme == old(theme) && originalTheme == old(originalTheme)
      ensures content == old(content) && language == old(language)
    {
      saving := true;
      msg := None;
      sent := theme;
    }

    /** The reply to a save of `sent` arrives. */
    method FinishSave(sent: string, reply: Reply)
      requires Valid()
      modifies this
      ensures Valid()
      ensures !saving && msg == Some(SaveNotice(reply))
      ensures originalTheme == if Succeeded(reply) then sent else old(originalTheme)
      ensures theme == old(theme) && content == old(content) && language == old(language)
    {
      saving := false;
      if reply.Parsed? && reply.json.Some? && reply.json.value.success {
        originalTheme := sent;
        msg := Some(Notice(SuccessNotice, "Theme saved."));
      } else if reply.Thrown? {
        msg := Some(Notice(ErrorNotice, reply.error));
      } else {
        var json := reply.json;
        var text := "Could not save theme";
        if json.Some? {
          if Truthy(json.value.dataMessage) {
            text := json.value.dataMessage.value;
          } else if Truthy(json.value.message) {
            text := json.value.message.value;
          }
        }
        msg := Some(Notice(ErrorNotice, text));
      }
    }

    /** `onReset`, behind the enabled Reset button: back to the last saved theme, with no notice; the preview follows. */
    method Reset()
      requires Valid() && CanReset()
      modifies this, head
      ensures Valid()
      ensures theme == old(originalTheme) && originalTheme == old(originalTheme) && msg == None
      ensures saving == old(saving) && content == old(content) && language == old(language)
      ensures !CanReset()
    {
      theme := originalTheme;
      msg := None;
      head.ApplyPreviewTheme(theme, data.themes, data.ajaxUrl);
    }

    /** The preview's language control: `setLanguage(value || 'none')`. */
    method SetLanguage(value: Option<string>)
      modifies this
      ensures language == Highlight.NormalizeLanguage(value)
      ensures theme == old(theme) && originalTheme == old(originalTheme) && saving == old(saving)
      ensures msg == old(msg) && content == old(content)
    {
      language := if value.Some? && value.value != "" then value.value else "none";
    }

    /** The preview's textarea. */
    method SetContent(value: string)
      modifies this
      ensures content == value
      ensures theme == old(theme) && originalTheme == old(originalTheme) && saving == old(saving)
      ensures msg == old(msg) && language == old(language)
    {
      content := value;
    }

    /** The `<code>` element of the interactive preview. */
    function PreviewCode(engine: Highlight.Engine): (code: Highlight.Code)
      reads this
      ensures language == Highlight.NoLanguage ==> code == Highlight.TextCode(content)
      ensures language != Highlight.NoLanguage ==>
        code == Highlight.HtmlCode("hljs language-" + language, Highlight.Highlighted(content, language, engine))
    {
      Highlight.PreviewCode(content, language, engine)
    }
  }

  /**
   * A full save round: a success makes the sent theme the saved one, so Reset
   * is disabled until the selection changes again; a failure keeps the
   * previous saved theme.
   */
  method SaveRound(page: AdminSettings, reply: Reply)
    requires page.Valid() && page.CanSave()
    modifies page
    ensures page.Valid()
    ensures Succeeded(reply) ==> page.originalTheme == page.theme && !page.CanReset()
    ensures !Succeeded(reply) ==> page.originalTheme == old(page.originalTheme) && page.msg.Some? && page.msg.value.kind == ErrorNotice
  {
    var sent := page.BeginSave();
    page.FinishSave(sent, reply);
  }
}
