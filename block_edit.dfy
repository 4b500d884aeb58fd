/**
 * The editor side of the `dm-hcb/highlighted-code-block` block (`edit.js`):
 * attribute defaults, the two `onChange` handlers, and what the block shows
 * when it is selected (the code input) and when it is not (the preview).
 */
module BlockEdit {
  import opened Wrappers
  import Highlight

  /** The block's attributes; `None` is an attribute that is not set. */
  datatype Attributes = Attributes(language: Option<string>, content: Option<string>)

  /** `const { language = 'none', content = '' } = attributes`. */
  function Language(a: Attributes): string {
    a.language.GetOr(Highlight.NoLanguage)
  }

  function Content(a: Attributes): string {
    a.content.GetOr("")
  }

  /** The language control's `onChange`: `setAttributes({ language: value || 'none' })`. */
  function OnLanguageChange(a: Attributes, value: Option<string>): (b: Attributes)
    ensures b.content == a.content
    ensures b.language.Some? && b.language.value != ""
  {
    a.(language := Some(Highlight.NormalizeLanguage(value)))
  }

  /** The text input's `onChange`: `setAttributes({ content: newContent })`. */
  function OnContentChange(a: Attributes, newContent: string): (b: Attributes)
    ensures b.language == a.language
    ensures Content(b) == newContent
  {
    a.(content := Some(newContent))
  }

  /** What the block renders below its inspector controls. */
  datatype View =
    | CodeInput(value: string)   // the `PlainText` textarea, while selected
    | Preview(code: Highlight.Code)

  function Render(a: Attributes, isSelected: bool, engine: Highlight.Engine): (v: View)
    ensures v.CodeInput? <==> isSelected
    ensures v.CodeInput? ==> v.value == Content(a)
    ensures v.Preview? ==> v.code == Highlight.PreviewCode(Content(a), Language(a), engine)
  {
    if isSelected then CodeInput(Content(a))
    else Preview(Highlight.PreviewCode(Content(a), Language(a), engine))
  }

  // ---- Properties ----

  /** A fresh block has language `none` and empty content, and previews as empty text. */
  lemma Defaults(engine: Highlight.Engine)
    ensures Language(Attributes(None, None)) == "none" && Content(Attributes(None, None)) == ""
    ensures Render(Attributes(None, None), false, engine) == Preview(Highlight.TextCode(""))
  {
  }

  /** Clearing the language control stores `none`, and the preview then shows plain text. */
  lemma ClearedLanguageIsNone(a: Attributes, value: Option<string>, engine: Highlight.Engine)
    requires value.None? || value == Some("")
    ensures Language(OnLanguageChange(a, value)) == "none"
    ensures Render(OnLanguageChange(a, value), false, engine) == Preview(Highlight.TextCode(Content(a)))
  {
  }

  /** A chosen language is stored as it is. */
  lemma ChosenLanguageStored(a: Attributes, lang: string)
    requires lang != ""
    ensures OnLanguageChange(a, Some(lang)) == Attributes(Some(lang), a.content)
  {
  }

  /** While selected, the block shows its raw content for editing, whatever the language. */
  lemma SelectedShowsInput(a: Attributes, engine: Highlight.Engine)
    ensures Render(a, true, engine) == CodeInput(Content(a))
  {
  }

  /**
   * Unselected, a block with a language other than `none` previews with class
   * `hljs language-<stored language>` and the highlighted content.
   */
  lemma PreviewUsesStoredLanguage(a: Attributes, engine: Highlight.Engine)
    requires Language(a) != "none"
    ensures Render(a, false, engine)
         == Preview(Highlight.HtmlCode("hljs language-" + Language(a),
                                       Highlight.Highlighted(Content(a), Language(a), engine)))
  {
  }

  /** Editing the content then the language gives the same attributes as the other order. */
  lemma HandlersCommute(a: Attributes, value: Option<string>, newContent: string)
    ensures OnLanguageChange(OnContentChange(a, newContent), value)
         == OnContentChange(OnLanguageChange(a, value), newContent)
  {
  }
}
