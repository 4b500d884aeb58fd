# Highlighted Code Blocks — a verified Dafny model

This is a model of the logic inside the WordPress plugin *Highlighted Code Blocks*, with proofs about it. The plugin adds a `dm-hcb/highlighted-code-block` block, which shows code highlighted by highlight.js. It also adds an *Appearance → Highlight Themes* page, where an administrator picks the stylesheet theme the site loads.

The model covers five pieces:

- **Autoloader** (`autoloader.dfy`). It maps a class name in the plugin's namespace to a file under `include/`, and includes that file when it exists. It works on an `array` of segments rewritten in place, as the PHP does, and is proved against a path function stated segment by segment.
- **Settings back end** (`settings.dfy`).
  - The theme catalogue is built from the files in `assets/build/themes`. It is a `foreach` loop proved equal to a catalogue function.
  - The AJAX save handler checks, in order, the capability, the nonce, and "empty or a known slug". On success it writes the option `dm_hcb_selected_theme`, held in a small `OptionStore` class.
- **Theme stylesheet selection** (`assets.dfy`). In each of the plugin's three enqueue contexts it prefers `<slug>.min.css`, then `<slug>.css`. `StyleRegistry` follows `wp_enqueue_style`'s register-once / queue-once behaviour.
- **Admin page script** (`admin.dfy`).
  - `themeOptions`.
  - The preview `<link id="hcb-preview-theme">`, kept in a `DocumentHead` class.
  - The page state `theme`, `originalTheme`, `saving` and `msg`, with the save, reset and clear actions, in an `AdminSettings` class.
- **Block editor and saved markup** (`highlight.dfy`, `block_edit.dfy`, `block_save.dfy`). This covers the highlight wrapper shared by the editor and the admin preview, the attribute defaults and change handlers, the preview's `<code>` element, and the static `<pre class="language-X"><code>` the block saves.

`strings.dfy` holds the host-language string primitives the code relies on: ASCII `strtolower`, one-character `str_replace`, case-insensitive suffix tests, and `explode`/`implode` with their round trip. `wrappers.dfy` holds `Option` and `Result`.

The environment enters as parameters:

- the directory listing, plus `is_dir` and `is_file`;
- `file_exists`, `has_block` and `current_user_can`;
- nonce verification;
- the highlight.js engine (`known`, `highlight`, display names);
- the reply that `fetch` produces.

## Model

| member | source | states |
|---|---|---|
| Autoloader.FileName | include/helpers/autoloader.php:30-34 | The file name has the segment's length plus 4. It ends in `.php`. Each character is the ASCII lower-case of the segment's character, with `_` replaced by `-`. |
| Autoloader.FileNameIsLowerHyphenated | include/helpers/autoloader.php:30-34 | A produced file name contains no `_` and no upper-case letter. |
| Autoloader.RewriteSlots | include/helpers/autoloader.php:18-36 | The in-place slot writes turn the exploded array into `Rewritten(old)`. The base directory grows by kind, slot 1 is blanked for `Traits`/`API`, the last slot becomes a file name, and slot 0 gets the base directory. |
| Autoloader.ImplodeSlots | include/helpers/autoloader.php:38 | `implode('', $split)` over the array equals the concatenation of its contents. |
| Autoloader.RewrittenPath | include/helpers/autoloader.php:18-38 | Imploding the rewritten array gives exactly the segment-wise path: prefix, then middle segments, then file name. |
| Autoloader.ComputeFilePath | include/helpers/autoloader.php:14-38 | Explode, the namespace test, the slot rewrite and the implode together compute `ClassFilePath(what)`. |
| Autoloader.Autoload | include/helpers/autoloader.php:13-43 | A file is included iff the name maps to a path and `plugin_path + path` exists. What is included is exactly that file. |
| Autoloader.NamespaceGate | include/helpers/autoloader.php:14-17 | A name maps to a path iff it is `DM_Highlighted_Code_Blocks` or starts with `DM_Highlighted_Code_Blocks\`. Every other name maps to nothing. |
| Autoloader.NamespacedNamesMap | include/helpers/autoloader.php:14-17 | (⇐ half of the gate) Every name in the namespace maps to some path. |
| Autoloader.MappedNamesAreNamespaced | include/helpers/autoloader.php:14-17 | (⇒ half of the gate) A name that maps to a path is in the namespace. |
| Autoloader.FirstPiece | include/helpers/autoloader.php:14 | A name equal to `p`, or starting with `p\`, explodes with `p` as its first piece. This holds for any `p` without a separator. |
| Autoloader.PathOfImploded | include/helpers/autoloader.php:14 | For separator-free segments, the class name made by joining them with `\` maps to the segment-wise path. (Also line 38.) |
| Autoloader.TraitPath | include/helpers/autoloader.php:20-22 | A `Traits` second segment gives `include/traits/trait-` + middle segments + file name. The `Traits` segment itself contributes nothing. (Also line 30-38.) |
| Autoloader.ApiPath | include/helpers/autoloader.php:23-25 | An `API` second segment gives `include/classes/api/class-` + middle segments + file name. The `API` segment itself contributes nothing. (Also line 30-38.) |
| Autoloader.ClassPath | include/helpers/autoloader.php:26-28 | Any other second segment gives `include/classes/class-` + the middle segments verbatim (case kept) + file name. (Also line 30-38.) |
| Autoloader.PathShape | include/helpers/autoloader.php:18 | Every produced path starts with `include/`. With two or more segments it ends with `.php`. The bare namespace name gives just `include/classes/class-`. (Also lines 33 and 36-38.) |
| Autoloader.SingletonExample | include/helpers/autoloader.php:20-22 | `DM_Highlighted_Code_Blocks\Traits\Singleton` maps to `include/traits/trait-singleton.php`. (Also line 30-38.) |
| Autoloader.SettingsExample | include/helpers/autoloader.php:26-38 | `DM_Highlighted_Code_Blocks\Settings` maps to `include/classes/class-settings.php`. |
| Autoloader.NestedNamespaceExample | include/helpers/autoloader.php:26-38 | `…\Helpers\Foo_Bar` maps to `include/classes/class-Helpersfoo-bar.php`: the middle segment is glued on unchanged. |
| Autoloader.BareTraitsExample | include/helpers/autoloader.php:20-22 | `…\Traits` alone maps to `include/traits/trait-.php`. (Also line 30-34.) |
| Autoloader.ForeignClassExample | include/helpers/autoloader.php:15-17 | `WP_Query` maps to nothing. |
| Strings.Explode | include/helpers/autoloader.php:14 | `explode` always yields at least one piece. (No piece holds the separator, and the round trips with `implode` are the `Strings` lemmas below.) |
| Strings.ImplodeExplode | include/helpers/autoloader.php:14 | `implode(sep, explode(sep, s)) == s`. (Also line 38.) |
| Strings.ExplodeImplode | include/helpers/autoloader.php:14 | For a non-empty list of pieces without the separator, `explode(sep, implode(sep, parts)) == parts`. (The empty list implodes to `""`, which explodes to `[""]`.) (Also line 38.) |
| Strings.ExplodePiecesLackSeparator | include/helpers/autoloader.php:14 | No piece of `explode` contains the separator. |
| Settings.ThemeSlug | include/classes/class-settings.php:174 | The slug is a prefix of the file name. A trailing `.min.css` (any case) is removed whole; otherwise a trailing `.css` is removed; otherwise the name is kept. |
| Settings.MinCssIsCss | include/classes/class-settings.php:173-174 | A name ending in `.min.css` also passes the `.css` test. |
| Settings.SlugOfMinified | include/classes/class-settings.php:174 | `ThemeSlug(s + X) == s` for any case variant `X` of `.min.css`. |
| Settings.SlugOfPlain | include/classes/class-settings.php:174 | `ThemeSlug(s + X) == s` for any case variant `X` of `.css`, when `s` does not end in `.min`. |
| Settings.Catalogue | include/classes/class-settings.php:164-182 | The catalogue of a listing has at most one entry per listed file. |
| Settings.AvailableThemes | include/classes/class-settings.php:156-185 | Without the themes directory there are no themes; otherwise at most one per listed file. |
| Settings.GetAvailableThemes | include/classes/class-settings.php:156-185 | The `is_dir` test and the `foreach` build exactly `AvailableThemes(listing)`: empty without the directory, else the catalogue of the listing. |
| Settings.CatalogueAppend | include/classes/class-settings.php:166-182 | Listing order is kept: the catalogue of `a + b` is the catalogue of `a` followed by that of `b`. |
| Settings.CatalogueSound | include/classes/class-settings.php:166-182 | Every catalogue entry is the entry of some listed file. |
| Settings.CatalogueComplete | include/classes/class-settings.php:166-182 | Every listed file yields its entry in the catalogue. |
| Settings.CatalogueMembers | include/classes/class-settings.php:166-182 | A theme is in the catalogue iff some file is not `.`/`..`, is a file, ends in `.css` (any case), and gives that entry. |
| Settings.EntryShape | include/classes/class-settings.php:173-180 | Each entry is a `.css` file, its name equals its slug, its slug is the stripped file name, and its URL is `plugin_url + "assets/build/themes/" + file`. |
| Settings.NoDirectoryNoThemes | include/classes/class-settings.php:160-162 | Without the themes directory the catalogue is empty. |
| Settings.BothVariantsListed | include/classes/class-settings.php:164-182 | There is no de-duplication: for an `s` not ending in `.min` (any case), `s.css` and `s.min.css` give two entries, both with slug `s`, in listing order. |
| Settings.GithubListedTwice | include/classes/class-settings.php:164-182 | `github.css` and `github.min.css` are two themes, both with slug `github`. |
| Settings.CollectSlugs | include/classes/class-settings.php:206-212 | The `$slugs` loop yields the slug of every available theme, in order. |
| Settings.SlugsMatch | include/classes/class-settings.php:206-214 | Strict `in_array` on the collected slugs holds iff some available theme has that slug. |
| Settings.SaveResponse | include/classes/class-settings.php:195-221 | A save succeeds only with the capability and a valid nonce. It saves exactly the requested theme (`""` when missing), and that theme is empty or available. |
| Settings.AjaxSaveTheme | include/classes/class-settings.php:194-222 | The response is `SaveResponse` on the themes found. The option becomes the saved theme on success and is unchanged on every error. |
| Settings.ForbiddenFirst | include/classes/class-settings.php:195-197 | Without `manage_options` the reply is `Forbidden`/403, for every nonce and theme. |
| Settings.NonceBeforeTheme | include/classes/class-settings.php:199-202 | With the capability but a bad nonce, the reply is `Invalid nonce`/400, for every theme. |
| Settings.AcceptedThemes | include/classes/class-settings.php:204 | Past both checks, the save succeeds iff the theme is empty or some catalogue slug. A success echoes the theme. Any other outcome is `Theme not available`/400. (Also line 214-221.) |
| Settings.MissingThemeClears | include/classes/class-settings.php:204 | A request without `theme` saves the empty selection. (Also line 214.) |
| Settings.SavedThemeIsListed | include/classes/class-settings.php:156-222 | A saved theme is empty, or is the slug of a listed `.css` file in an existing themes directory. |
| Assets.ChooseVariant | include/classes/class-assets.php:71-77 | `.min.css` is chosen iff it exists. `.css` is chosen iff the minified file does not exist and the plain one does. |
| Assets.ThemeStyle | include/classes/class-assets.php:67-78 | A context enqueues a theme stylesheet iff its block test passes, the selection is PHP-truthy, and the minified or the plain file exists. Its dependencies are the context's. |
| Assets.EnqueueTheme | include/classes/class-assets.php:67-79 | The registry changes exactly as one `wp_enqueue_style` of `ThemeStyle(...)` dictates, or not at all when there is none. Its validity is kept. (Also lines 107-118 and 147-156.) |
| Assets.EnqueueAssets | include/classes/class-assets.php:66-79 | The front-end hook's effect on the registry, as `ThemeStyle(FrontEnd, …)`. |
| Assets.EnqueueBlockAssets | include/classes/class-assets.php:106-118 | The block-assets hook's effect on the registry, as `ThemeStyle(BlockAssets, …)`. |
| Assets.EnqueueBlockEditorAssets | include/classes/class-assets.php:146-156 | The editor hook's effect on the registry, as `ThemeStyle(Editor, …)`, with no block test. |
| Assets.StyleRegistry.Enqueue | include/classes/class-assets.php:74 | `wp_enqueue_style` keeps an existing registration and queues a handle only once. The registry stays valid: every queued handle is registered and none is queued twice. |
| Assets.NoSelectionNoStyle | include/classes/class-assets.php:69 | An empty (or PHP-falsy `"0"`) selection enqueues no theme stylesheet in any context. (Also lines 109 and 148.) |
| Assets.MinifiedPreferred | include/classes/class-assets.php:73-74 | When `<slug>.min.css` exists, it is enqueued from `plugin_url + "assets/build/themes/" + slug + ".min.css"`, even if `.css` also exists. (Also lines 112-113 and 151-152.) |
| Assets.PlainFallback | include/classes/class-assets.php:75-77 | Without the minified file, `<slug>.css` is enqueued if it exists; otherwise nothing is. (Also lines 114-116 and 153-155.) |
| Assets.BlockGating | include/classes/class-assets.php:67 | The front end and block assets enqueue nothing without the block. The editor's result does not depend on the block test. (Also lines 107 and 147.) |
| Assets.StyleDependencies | include/classes/class-assets.php:74 | The theme stylesheet depends on `editor-css` in the editor and on nothing elsewhere. (Also lines 76, 113, 115, 152 and 154.) |
| Assets.HandlesPerContext | include/classes/class-assets.php:74-76 | The handle table, including the block-assets plain handle `dm_hcb-highlight-theme-block`, which differs from the minified `dm-hcb-highlight-theme-block`. (Also lines 113-115 and 152-154.) |
| Assets.ContextsUseOwnHandles | include/classes/class-assets.php:74-76 | No two contexts share a handle. (Also lines 113-115 and 152-154.) |
| Assets.ZeroThemeSavedButNeverEnqueued | include/classes/class-settings.php:214-221 | With the only theme file `0.css`, saving `"0"` succeeds, yet no context enqueues it (see class-assets.php:69, 109, 148). |
| Highlight.LanguageOptions | assets/src/blocks/highlighted-code-block/edit.js:12-22 | The `None`/`none` entry comes first, then one entry per language in order, valued by the language. Its label is non-empty unless the identifier itself is empty. A language with a non-empty display name is labelled with that name. |
| Highlight.UnnamedLanguageLabel | assets/src/blocks/highlighted-code-block/edit.js:16-19 | A language without a display name is labelled with its identifier. |
| Highlight.NormalizeLanguage | assets/src/blocks/highlighted-code-block/edit.js:55-57 | The stored language is never empty. A chosen value is kept. An empty or missing value becomes `none`. |
| Highlight.ResolvedLanguage | assets/src/blocks/highlighted-code-block/edit.js:33-35 | A language the engine knows is used; an unknown one becomes `plaintext`. |
| Highlight.Highlighted | assets/src/blocks/highlighted-code-block/edit.js:28-42 | Empty content or `none` gives the content unchanged. Otherwise the result is the content or the engine's output for the resolved language. (Same as admin.js:175-189.) |
| Highlight.UnhighlightedCases | assets/src/blocks/highlighted-code-block/edit.js:29-31 | Empty content or `none` is returned unchanged. |
| Highlight.EngineAsked | assets/src/blocks/highlighted-code-block/edit.js:33-38 | Otherwise the engine's output for the stored (or `plaintext`) language is returned. |
| Highlight.FailureShowsContent | assets/src/blocks/highlighted-code-block/edit.js:37-41 | An engine failure is swallowed and the raw content returned. |
| Highlight.HighlightedIsContentOrEngineOutput | assets/src/js/admin.js:175-189 | The result is always the content or the engine's output for the resolved language. |
| Highlight.PreviewClassIsStoredLanguage | assets/src/blocks/highlighted-code-block/edit.js:84-92 | The preview class is `hljs language-<stored language>`, not the resolved fallback, and its HTML is the highlighted content. |
| Highlight.PreviewOfNone | assets/src/blocks/highlighted-code-block/edit.js:84-85 | With `none` the preview is plain text with no class. |
| Highlight.PreviewCode | assets/src/blocks/highlighted-code-block/edit.js:84-92 | The preview is plain text (the content) exactly when the language is `none`. Otherwise its class is `hljs language-<stored language>`. |
| BlockEdit.OnLanguageChange | assets/src/blocks/highlighted-code-block/edit.js:55-57 | Only the language changes, and it is set to a non-empty value. |
| BlockEdit.OnContentChange | assets/src/blocks/highlighted-code-block/edit.js:68-70 | Only the content changes, and it is set to the new text. |
| BlockEdit.Defaults | assets/src/blocks/highlighted-code-block/edit.js:25 | Unset attributes read as language `none` and content `""`, and preview as empty text. |
| BlockEdit.ClearedLanguageIsNone | assets/src/blocks/highlighted-code-block/edit.js:55-57 | Clearing the language stores `none`, and the preview becomes plain text. (Also line 84-85.) |
| BlockEdit.ChosenLanguageStored | assets/src/blocks/highlighted-code-block/edit.js:55-57 | A chosen language is stored as it is and the content is untouched. |
| BlockEdit.SelectedShowsInput | assets/src/blocks/highlighted-code-block/edit.js:63-78 | A selected block shows its raw content in the input. |
| BlockEdit.PreviewUsesStoredLanguage | assets/src/blocks/highlighted-code-block/edit.js:81-96 | An unselected block that names a language previews with `hljs language-<language>` and the highlighted content. |
| BlockEdit.HandlersCommute | assets/src/blocks/highlighted-code-block/edit.js:55-57 | The two handlers touch disjoint attributes, so their order does not matter. (Also line 68-70.) |
| BlockEdit.Render | assets/src/blocks/highlighted-code-block/edit.js:62-96 | A selected block shows the code input holding its content. An unselected one shows the preview for its stored content and language. |
| BlockSave.ClassIffLanguage | assets/src/blocks/highlighted-code-block/save.js:13-17 | The `<pre>` has a class iff the language is set, non-empty and not `none`. That class is `language-<language>`. |
| BlockSave.CodeIsContent | assets/src/blocks/highlighted-code-block/save.js:19-27 | String content is emitted verbatim. Rich text is emitted as its serialisation. |
| BlockSave.SavedIsUnhighlightedPreview | assets/src/blocks/highlighted-code-block/save.js:9-31 | The saved code is the raw content, and its class starts with `language-`. The editor preview's class is `hljs ` + that class. |
| BlockSave.Save | assets/src/blocks/highlighted-code-block/save.js:9-31 | The `<pre>` has a class iff the language names one, and it is `language-<language>`. The code is the string content, or the rich text's serialisation. |
| Admin.Or | assets/src/js/admin.js:141-153 | `s \|\| fallback`: the string when it is truthy, else the fallback. |
| Admin.ThemeOptions | assets/src/js/admin.js:135-155 | The `''`/`Default / None` entry comes first, then one option per theme, in order. |
| Admin.OptionValueFallback | assets/src/js/admin.js:138-145 | The option value falls back from `slug`, to `name`, to the file name with `.min.css`/`.css` stripped, to `""`. |
| Admin.CaptionPresent | assets/src/js/admin.js:146-153 | A caption is empty only if the value is. |
| Admin.CatalogueOptionsAreSlugs | assets/src/js/admin.js:135-155 | For the server's catalogue, each option's value is the entry's slug. |
| Admin.OfferedThemesAreAccepted | assets/src/js/admin.js:135-155 | Every theme option the page offers for the catalogue is accepted by the save handler (class-settings.php:214-221). |
| Admin.FindTheme | assets/src/js/admin.js:51-53 | `find` returns the first theme whose `t.slug ? t.slug : t` equals the slug, or nothing when none does. |
| Admin.Key | assets/src/js/admin.js:51-53 | A bare string is its own key. A record's key is its slug when that is truthy, and it has none otherwise. |
| Admin.ThemeHref | assets/src/js/admin.js:61-69 | A bare string has no href. A record's href is its `url`, else `ajax_url + "?file=" + file`, else none. |
| Admin.PreviewHref | assets/src/js/admin.js:44-69 | A falsy or unmatched slug has no href. A link's href is non-empty and belongs to a theme whose key is the slug. |
| Admin.DocumentHead.ApplyPreviewTheme | assets/src/js/admin.js:40-85 | Afterwards the head holds one link with `PreviewHref(slug)`, or none. An existing link is reused, and one is appended only when there was none. At most one link ever exists. |
| Admin.DocumentHead.RemoveExisting | assets/src/js/admin.js:45-47 | Afterwards no preview link exists, and nothing was appended. |
| Admin.NoSlugNoLink | assets/src/js/admin.js:44-49 | A falsy slug leaves no preview link. |
| Admin.UnknownSlugNoLink | assets/src/js/admin.js:51-59 | A slug matching no theme leaves no preview link. |
| Admin.LinkOfFirstMatch | assets/src/js/admin.js:51-69 | For the first matching record, the href is `url`, else `ajax_url + "?file=" + file`, else there is no link. |
| Admin.BareSlugHasNoLink | assets/src/js/admin.js:61-69 | A theme given as a bare string has no stylesheet, so there is no link. |
| Admin.SaveNotice | assets/src/js/admin.js:199-214 | The notice is a success exactly when the parsed reply has `success`, and then reads "Theme saved.". A thrown error shows its own text. Any other reply shows `data.message`, else `message`, else "Could not save theme". |
| Admin.ServerMessageShown | assets/src/js/admin.js:199-210 | A handler success shows "Theme saved.". A refusal shows its own message. |
| Admin.SaveOutcomesOnPage | assets/src/js/admin.js:199-210 | For every request, the page shows "Theme saved." or one of `Forbidden`, `Invalid nonce` or `Theme not available` (class-settings.php:194-222). |
| Admin.AdminSettings.constructor | assets/src/js/admin.js:10-16 | The page data is `window.HCB_ADMIN`, or the empty default when it is missing. Theme and saved theme both come from `DATA.selected \|\| ''` (lines 157-173). Nothing is being saved and there is no notice. The preview fields start at their defaults, and the preview link is applied. |
| Admin.AdminSettings.SetTheme | assets/src/js/admin.js:167-169 | Only the theme changes, and the preview link follows it. (Also line 237.) |
| Admin.AdminSettings.Clear | assets/src/js/admin.js:271-277 | Callable only while no save is under way, as the button is disabled while saving. The theme becomes `''` and the preview link is removed. |
| Admin.AdminSettings.BeginSave | assets/src/js/admin.js:191-197 | The click sends the current theme. `saving` is set and the notice cleared. |
| Admin.AdminSettings.CanReset | assets/src/js/admin.js:266 | Reset is enabled exactly when no save is under way and the selection differs from the saved theme. |
| Admin.AdminSettings.FinishSave | assets/src/js/admin.js:196-215 | `saving` is cleared and the notice is `SaveNotice(reply)`. `originalTheme` becomes the sent theme only on success. The selection is untouched. |
| Admin.AdminSettings.Reset | assets/src/js/admin.js:218-221 | Callable only when the Reset button is enabled. The theme returns to `originalTheme` and the notice is cleared. Afterwards Reset is disabled. (Also line 266.) |
| Admin.AdminSettings.SetLanguage | assets/src/js/admin.js:291 | The preview language is `value \|\| 'none'`. |
| Admin.AdminSettings.SetContent | assets/src/js/admin.js:298 | Only the preview content changes. |
| Admin.AdminSettings.PreviewCode | assets/src/js/admin.js:324-333 | The interactive preview shows the content as text for `none`. Otherwise it shows `hljs language-<language>` with the highlighted content. |
| Admin.SaveRound | assets/src/js/admin.js:191-216 | After a successful round the saved theme equals the selection and Reset is disabled. After a failed one the saved theme is unchanged and an error is shown. (Also line 266.) |

## Left out

- Autoloader: the `include_once` is modelled as returning the path to include, and `file_exists` is a parameter. Loading PHP code is not modelled.
- Autoloader.SingletonExample, SettingsExample, NestedNamespaceExample and BareTraitsExample are stated on the segments `explode` yields, not on the class-name strings. `Autoloader.PathOfImploded` connects the two for every separator-free segment list.
- `strtolower` is modelled on ASCII letters only (the behaviour since PHP 8.2). Case-insensitive PCRE matching is likewise ASCII.
- The PCRE `$` anchor also matches before a final newline. File names ending in a newline are not modelled.
- The theme directory path, `is_dir`, `scandir` and `is_file` are inputs. `is_file` is applied to the bare file name, which stands for the full path under the themes directory.
- `sanitize_text_field` and `wp_unslash` are taken as the identity. `current_user_can` and `wp_verify_nonce` are boolean inputs. `wp_create_nonce` is not modelled.
- Admin.OfferedThemesAreAccepted: holds because `sanitize_text_field` is taken as the identity. The real sanitizer collapses whitespace and strips `%XX` octets, so a file such as `a  b.css` would be offered by the page and then refused as not available.
- `wp_send_json_*` ending the request is modelled as the method returning its response.
- `register_setting` registers `hcb_selected_theme`, while every read and write uses `dm_hcb_selected_theme`. The model stores only the option the code reads and writes.
- The settings page markup, `register_settings_page`, `enqueue_admin_assets` (script and style enqueues, `wp_localize_script`) and all i18n strings are not modelled. The localized data is the `AdminData` input.
- Stylesheet versions from `filemtime`, and the non-theme enqueues of the three asset hooks, are not modelled. The latter use `HCB_PLUGIN_PATH` as a URL and `editor.asset.php` as a script source.
- Hook wiring and bootstrap are not part of this model: `highlighted-code-blocks.php`, `class-plugin.php`, `class-blocks.php`, `index.js` and the class constructors.
- The highlight.js engine is abstract. Its internals (`listLanguages`, `getLanguage`, `highlight`) are not modelled.
- Network, DOM and React are not modelled. This covers `fetch`/`FormData` in `saveThemeToServer`, the timing of effects, JSX layout, `NoticeInline` styling and mounting. The head is reduced to the hrefs of `hcb-preview-theme` links. A save is split into its click and the arrival of its reply.
- Admin.AdminSettings.SetTheme: a `null` value from the theme control is not modelled; the value is always a string.
- The block's attribute defaults are those of the `edit.js` destructuring. If `save.js` received undefined content it would throw; that case is not modelled.
- BlockSave.SavedIsUnhighlightedPreview: the `useBlockProps.save()` class names that WordPress merges into the `<pre>` are not modelled.
- PHP truthiness of the selected option is modelled exactly, so a theme saved as `"0"` is never enqueued (`Assets.ZeroThemeSavedButNeverEnqueued`). This is the code's behaviour and is stated as a property.
