/**
 * The saved markup of the `dm-hcb/highlighted-code-block` block (`save.js`):
 * a `<pre>` whose class names the language, around a `<code>` holding the
 * content. No highlighting happens here.
 */
module BlockSave {
  import opened Wrappers
  import Highlight

  /** The `content` attribute: a plain string, or rich-text data serialised with whitespace preserved. */
  datatype Content = Text(text: string) | Rich(html: string)

  datatype SaveAttributes = SaveAttributes(language: Option<string>, content: Content)

  /** `<pre className={cls}><code>{value}</code></pre>`. */
  datatype Markup = Pre(className: Option<string>, code: string)

  /** `attributes.language && attributes.language !== 'none'`. */
  predicate NamesLanguage(language: Option<string>) {
    language.Some? && language.value != "" && language.value != Highlight.NoLanguage
  }

  function Save(a: SaveAttributes): (m: Markup)
    ensures m.className.Some? <==> NamesLanguage(a.language)
    ensures m.className.Some? ==> m.className.value == "language-" + a.language.value
    ensures m.code == if a.content.Text? then a.content.text else a.content.html
  {
    Pre(if NamesLanguage(a.language) then Some("language-" + a.language.value) else None,
        match a.content
        case Text(s) => s
        case Rich(html) => html)
  }

  /** The `<pre>` has a class exactly when the language is set, non-empty and not `none`, and it is `language-<language>`. */
  lemma ClassIffLanguage(a: SaveAttributes)
    ensures Save(a).className.Some? <==> a.language.Some? && a.language.value != "" && a.language.value != "none"
    ensures Save(a).className.Some? ==> Save(a).className.value == "language-" + a.language.value
  {
  }

  /** The code is the string content verbatim, or the serialised rich text. */
  lemma CodeIsContent(a: SaveAttributes)
    ensures a.content.Text? ==> Save(a).code == a.content.text
    ensures a.content.Rich? ==> Save(a).code == a.content.html
  {
  }

  /**
   * The saved class never carries the `hljs` class the editor preview adds,
   * and the saved code is the raw content, not the highlighter's output: the
   * preview class is `hljs ` followed by the saved class.
   */
  lemma SavedIsUnhighlightedPreview(language: string, content: string, engine: Highlight.Engine)
    requires language != "" && language != "none"
    ensures var saved := Save(SaveAttributes(Some(language), Text(content)));
      var preview := Highlight.PreviewCode(content, language, engine);
      saved.className.Some? && preview.HtmlCode?
      && preview.className == "hljs " + saved.className.value
      && saved.code == content
      && saved.className.value[..9] == "language-"
  {
  }
}
