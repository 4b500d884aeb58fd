/**
 * The highlight.js wrapper shared by the block editor (`edit.js`) and the admin
 * preview (`admin.js`): the language list offered in the language control, the
 * normalisation of a chosen value, the memoised `highlightedContent`, and the
 * `<code>` element the preview renders.
 *
 * highlight.js itself is an input: whether it knows a language, the display
 * name it gives one, and a highlight call that may fail.
 */
module Highlight {
  import opened Wrappers

  /** `hljs.getLanguage(l)` being truthy, and `hljs.highlight(content, {language})`. */
  datatype Engine = Engine(known: string -> bool, highlight: (string, string) -> Result<string, string>)

  const NoLanguage := "none"
  const Fallback := "plaintext"

  /** One entry of `LANGUAGE_OPTIONS`. */
  datatype LanguageOption = LanguageOption(caption: string, value: string)

  /** `{ label: meta?.name || lang, value: lang }`. */
  function LanguageEntry(lang: string, displayName: string -> Option<string>): LanguageOption {
    var name := displayName(lang);
    LanguageOption(if name.Some? && name.value != "" then name.value else lang, lang)
  }

  /** `LANGUAGE_OPTIONS`: the `None` entry, then one entry per language of `hljs.listLanguages()`. */
  function LanguageOptions(langs: seq<string>, displayName: string -> Option<string>): (options: seq<LanguageOption>)
    ensures |options| == |langs| + 1
    ensures options[0] == LanguageOption("None", NoLanguage)
    ensures forall i :: 0 <= i < |langs| ==> options[i + 1].value == langs[i]
    ensures forall i :: 0 <= i < |langs| ==> options[i + 1].caption != "" || langs[i] == ""
    ensures forall i :: 0 <= i < |langs| && displayName(langs[i]).Some? && displayName(langs[i]).value != "" ==>
      options[i + 1].caption == displayName(langs[i]).value
  {
    [LanguageOption("None", NoLanguage)] + seq(|langs|, i requires 0 <= i < |langs| => LanguageEntry(langs[i], displayName))
  }

  /** A language without a display name is labelled with its own identifier. */
  lemma UnnamedLanguageLabel(langs: seq<string>, displayName: string -> Option<string>, i: int)
    requires 0 <= i < |langs| && (displayName(langs[i]).None? || displayName(langs[i]) == Some(""))
    ensures LanguageOptions(langs, displayName)[i + 1] == LanguageOption(langs[i], langs[i])
  {
  }

  /** The language controls' `onChange`: `value || 'none'`. */
  function NormalizeLanguage(value: Option<string>): (language: string)
    ensures language != ""
    ensures value.Some? && value.value != "" ==> language == value.value
    ensures value.None? || value == Some("") ==> language == NoLanguage
  {
    if value.Some? && value.value != "" then value.value else NoLanguage
  }

  /** The language passed to the engine: the stored one if the engine knows it, else `plaintext`. */
  function ResolvedLanguage(language: string, engine: Engine): (resolved: string)
    ensures engine.known(language) ==> resolved == language
    ensures !engine.known(language) ==> resolved == Fallback
  {
    if engine.known(language) then language else Fallback
  }

  /** `highlightedContent`. */
  function Highlighted(content: string, language: string, engine: Engine): (html: string)
    ensures content == "" || language == NoLanguage ==> html == content
    ensures html == content || engine.highlight(content, ResolvedLanguage(language, engine)) == Success(html)
  {
    if content == "" || language == NoLanguage then content
    else
      match engine.highlight(content, ResolvedLanguage(language, engine))
      case Success(html) => html
      case Failure(_) => content
  }

  /** Empty content or the `none` language is returned as it is. */
  lemma UnhighlightedCases(content: string, language: string, engine: Engine)
    requires content == "" || language == NoLanguage
    ensures Highlighted(content, language, engine) == content
  {
  }

  /**
   * Otherwise the engine is asked with the stored language when it knows it,
   * and with `plaintext` when it does not; whatever it returns is used.
   */
  lemma EngineAsked(content: string, language: string, engine: Engine, html: string)
    requires content != "" && language != NoLanguage
    requires engine.highlight(content, if engine.known(language) then language else Fallback) == Success(html)
    ensures Highlighted(content, language, engine) == html
  {
  }

  /** An engine failure is swallowed: the raw content is shown. */
  lemma FailureShowsContent(content: string, language: string, engine: Engine)
    requires engine.highlight(content, ResolvedLanguage(language, engine)).Failure?
    ensures Highlighted(content, language, engine) == content
  {
  }

  /** Whatever happens, the result is the content itself or the engine's output for the resolved language. */
  lemma HighlightedIsContentOrEngineOutput(content: string, language: string, engine: Engine)
    ensures Highlighted(content, language, engine) == content
         || engine.highlight(content, ResolvedLanguage(language, engine)) == Success(Highlighted(content, language, engine))
  {
  }

  /** The `<code>` element of a preview. */
  datatype Code =
    | TextCode(text: string)                   // `<code>{ content }</code>`
    | HtmlCode(className: string, html: string) // `className` and `dangerouslySetInnerHTML`

  /** The preview's `language === 'none'` choice. */
  function PreviewCode(content: string, language: string, engine: Engine): (code: Code)
    ensures code.TextCode? <==> language == NoLanguage
    ensures code.TextCode? ==> code.text == content
    ensures code.HtmlCode? ==> code.className == "hljs language-" + language
  {
    if language == NoLanguage then TextCode(content)
    else HtmlCode("hljs language-" + language, Highlighted(content, language, engine))
  }

  /**
   * The preview class names the stored language, not the resolved one: an
   * unknown language keeps its name in the class while `plaintext` is used to
   * highlight.
   */
  lemma PreviewClassIsStoredLanguage(content: string, language: string, engine: Engine)
    requires language != NoLanguage
    ensures PreviewCode(content, language, engine).HtmlCode?
    ensures PreviewCode(content, language, engine).className == "hljs language-" + language
    ensures PreviewCode(content, language, engine).html == Highlighted(content, language, engine)
  {
  }

  /** With `none` the preview shows the content as text, with no class. */
  lemma PreviewOfNone(content: string, engine: Engine)
    ensures PreviewCode(content, NoLanguage, engine) == TextCode(content)
  {
  }
}
