/** The editor's shared store: the document, its file name, whether it is
    modified, and the display preferences, with one action per field. Each
    action merges the fields it names into the state and leaves the rest. */
module EditorStore {
  datatype EditorState = EditorState(
    content: string, fileName: string, isModified: bool,
    theme: string, fontSize: int, showEditor: bool, showPreview: bool)

  const DefaultFileName: string := "untitled.md"
  const DefaultTheme: string := "github"
  const DefaultFontSize: int := 16

  /** The state a fresh store starts in, around the default document. */
  function InitialState(defaultMarkdown: string): (s: EditorState)
    ensures s.content == defaultMarkdown && s.fileName == "untitled.md" && !s.isModified
    ensures s.theme == "github" && s.fontSize == 16 && s.showEditor && s.showPreview
  {
    EditorState(defaultMarkdown, DefaultFileName, false, DefaultTheme, DefaultFontSize, true, true)
  }

  // ---------------------------------------------------------------------
  // Actions

  function WithContent(s: EditorState, content: string): EditorState {
    s.(content := content, isModified := true)
  }

  function WithFileName(s: EditorState, fileName: string): EditorState {
    s.(fileName := fileName)
  }

  function WithModified(s: EditorState, modified: bool): EditorState {
    s.(isModified := modified)
  }

  function WithTheme(s: EditorState, theme: string): EditorState {
    s.(theme := theme)
  }

  function WithFontSize(s: EditorState, size: int): EditorState {
    s.(fontSize := size)
  }

  function EditorToggled(s: EditorState): EditorState {
    s.(showEditor := !s.showEditor)
  }

  function PreviewToggled(s: EditorState): EditorState {
    s.(showPreview := !s.showPreview)
  }

  function ResetState(s: EditorState, defaultMarkdown: string): EditorState {
    s.(content := defaultMarkdown, fileName := DefaultFileName, isModified := false)
  }

  /** The preferences an action may leave alone. */
  predicate SamePreferences(a: EditorState, b: EditorState) {
    a.theme == b.theme && a.fontSize == b.fontSize && a.showEditor == b.showEditor && a.showPreview == b.showPreview
  }

  // ---------------------------------------------------------------------
  // Properties

  /** Editing marks the document modified and touches nothing else. */
  lemma SetContentMarksModified(s: EditorState, content: string)
    ensures var r := WithContent(s, content);
      r.content == content && r.isModified && r.fileName == s.fileName && SamePreferences(r, s)
  {
  }

  /** Each toggle flips exactly its own flag; applied twice it is the
      identity, and the two toggles commute. */
  lemma TogglesFlipOneFlag(s: EditorState)
    ensures EditorToggled(s).showEditor == !s.showEditor && EditorToggled(s).(showEditor := s.showEditor) == s
    ensures PreviewToggled(s).showPreview == !s.showPreview && PreviewToggled(s).(showPreview := s.showPreview) == s
    ensures EditorToggled(EditorToggled(s)) == s && PreviewToggled(PreviewToggled(s)) == s
    ensures EditorToggled(PreviewToggled(s)) == PreviewToggled(EditorToggled(s))
  {
  }

  /** Reset restores the document, the file name and the modified flag of
      a fresh store, and keeps the theme, font size and pane flags. */
  lemma ResetKeepsPreferences(s: EditorState, defaultMarkdown: string)
    ensures var r := ResetState(s, defaultMarkdown);
      var init := InitialState(defaultMarkdown);
      r.content == init.content && r.fileName == init.fileName && r.isModified == init.isModified
      && SamePreferences(r, s)
    ensures ResetState(ResetState(s, defaultMarkdown), defaultMarkdown) == ResetState(s, defaultMarkdown)
    ensures ResetState(InitialState(defaultMarkdown), defaultMarkdown) == InitialState(defaultMarkdown)
  {
  }

  /** Whatever was edited or renamed is forgotten by a reset. */
  lemma ResetForgetsEdits(s: EditorState, content: string, name: string, defaultMarkdown: string)
    ensures ResetState(WithFileName(WithContent(s, content), name), defaultMarkdown) == ResetState(s, defaultMarkdown)
  {
  }

  /** The font size and the theme are stored exactly as given: no
      clamping of the size, no check of the theme id. */
  lemma SettersStoreVerbatim(s: EditorState, size: int, theme: string)
    ensures WithFontSize(s, size).fontSize == size && WithFontSize(s, size) == s.(fontSize := size)
    ensures WithTheme(s, theme).theme == theme && WithTheme(s, theme) == s.(theme := theme)
  {
  }

  // ---------------------------------------------------------------------
  // The store as state updated in place

  class Store {
    const defaultMarkdown: string
    var content: string
    var fileName: string
    var isModified: bool
    var theme: string
    var fontSize: int
    var showEditor: bool
    var showPreview: bool

    function State(): EditorState
      reads this
    {
      EditorState(content, fileName, isModified, theme, fontSize, showEditor, showPreview)
    }

    constructor(defaultMarkdown: string)
      ensures State() == InitialState(defaultMarkdown) && this.defaultMarkdown == defaultMarkdown
    {
      this.defaultMarkdown := defaultMarkdown;
      content := defaultMarkdown;
      fileName := "untitled.md";
      isModified := false;
      theme := "github";
      fontSize := 16;
      showEditor := true;
      showPreview := true;
    }

    method SetContent(newContent: string)
      modifies this
      ensures State() == WithContent(old(State()), newContent)
    {
      content, isModified := newContent, true;
    }

    method SetFileName(name: string)
      modifies this
      ensures State() == WithFileName(old(State()), name)
    {
      fileName := name;
    }

    method SetIsModified(modified: bool)
      modifies this
      ensures State() == WithModified(old(State()), modified)
    {
      isModified := modified;
    }

    method SetTheme(newTheme: string)
      modifies this
      ensures State() == WithTheme(old(State()), newTheme)
    {
      theme := newTheme;
    }

    method SetFontSize(size: int)
      modifies this
      ensures State() == WithFontSize(old(State()), size)
    {
      fontSize := size;
    }

    method ToggleEditor()
      modifies this
      ensures State() == EditorToggled(old(State()))
    {
      showEditor := !showEditor;
    }

    method TogglePreview()
      modifies this
      ensures State() == PreviewToggled(old(State()))
    {
      showPreview := !showPreview;
    }

    method Reset()
      modifies this
      ensures State() == ResetState(old(State()), defaultMarkdown)
    {
      content, fileName, isModified := defaultMarkdown, "untitled.md", false;
    }
  }
}
