/**
 * Redcar's Command: how a command reads its input from the active tab,
 * how it applies its output back to the tab, and how an inline command
 * and a shell command forward what they produce.
 *
 * Input and output kinds are Ruby symbols in the source; here a symbol is
 * an `Option<string>`, `None` standing for `nil`, and each is normalised
 * to a closed enumeration before it is acted on.
 */
module Commands {
  import opened Wrappers
  import Text
  import opened Buffers

  // ---------------------------------------------------------------- kinds

  datatype InputKind =
    | SelectedText | Document | Line | Word | Character | Scope | Nothing
    | Unrecognised   // nil, or a symbol no `when` of input_by_type names

  /** The input kind `input_by_type` reads for a symbol, its aliases included. */
  function InputKindOf(sym: Option<string>): InputKind {
    match sym
    case None => Unrecognised
    case Some(s) =>
      if s == "selected_text" || s == "selection" || s == "selectedText" then SelectedText
      else if s == "document" then Document
      else if s == "line" then Line
      else if s == "word" then Word
      else if s == "character" then Character
      else if s == "scope" then Scope
      else if s == "nothing" then Nothing
      else Unrecognised
  }

  /**
   * The input kind `replace_input` and `insert_after_input` act on, for the
   * symbol `valid_input_type` returns; these two accept fewer aliases.
   */
  function InputTarget(sym: Option<string>): InputKind {
    match sym
    case None => Unrecognised
    case Some(s) =>
      if s == "selected_text" || s == "selectedText" then SelectedText
      else if s == "line" then Line
      else if s == "document" then Document
      else if s == "word" then Word
      else if s == "scope" then Scope
      else Unrecognised
  }

  datatype OutputKind =
    | ReplaceDocument | ReplaceLine | ReplaceSelectedText | InsertAsText
    | InsertAsSnippet | ShowAsToolTip | AfterSelectedText | CreateNewDocument
    | ReplaceInput | ShowAsHtml | InsertAfterInput
    | Unmatched   // nil, or a symbol no `when` of direct_output names

  /** The output kind `direct_output` performs for a symbol, its aliases included. */
  function OutputKindOf(sym: Option<string>): OutputKind {
    match sym
    case None => Unmatched
    case Some(s) =>
      if s == "replace_document" || s == "replaceDocument" then ReplaceDocument
      else if s == "replace_line" || s == "replaceLine" then ReplaceLine
      else if s == "replace_selected_text" || s == "replaceSelectedText" then ReplaceSelectedText
      else if s == "insert_as_text" || s == "insertAsText" then InsertAsText
      else if s == "insert_as_snippet" || s == "insertAsSnippet" then InsertAsSnippet
      else if s == "show_as_tool_tip" || s == "show_as_tooltip" || s == "showAsTooltip" then ShowAsToolTip
      else if s == "after_selected_text" || s == "afterSelectedText" then AfterSelectedText
      else if s == "create_new_document" || s == "createNewDocument" then CreateNewDocument
      else if s == "replace_input" || s == "replaceInput" then ReplaceInput
      else if s == "show_as_html" || s == "showAsHTML" then ShowAsHtml
      else if s == "insert_after_input" || s == "insertAfterInput" then InsertAfterInput
      else Unmatched
  }

  /** Every spelling `direct_output` accepts for each kind. */
  function OutputSpellings(k: OutputKind): set<string> {
    match k
    case ReplaceDocument => {"replace_document", "replaceDocument"}
    case ReplaceLine => {"replace_line", "replaceLine"}
    case ReplaceSelectedText => {"replace_selected_text", "replaceSelectedText"}
    case InsertAsText => {"insert_as_text", "insertAsText"}
    case InsertAsSnippet => {"insert_as_snippet", "insertAsSnippet"}
    case ShowAsToolTip => {"show_as_tool_tip", "show_as_tooltip", "showAsTooltip"}
    case AfterSelectedText => {"after_selected_text", "afterSelectedText"}
    case CreateNewDocument => {"create_new_document", "createNewDocument"}
    case ReplaceInput => {"replace_input", "replaceInput"}
    case ShowAsHtml => {"show_as_html", "showAsHTML"}
    case InsertAfterInput => {"insert_after_input", "insertAfterInput"}
    case Unmatched => {}
  }

  /** A symbol selects an output kind exactly when it is one of that kind's spellings; nil selects none. */
  lemma OutputKindOfSpellings(s: string, k: OutputKind)
    requires k != Unmatched
    ensures OutputKindOf(Some(s)) == k <==> s in OutputSpellings(k)
    ensures OutputKindOf(None) == Unmatched
  {
    match k
    case ReplaceDocument => ReplaceDocumentSpellings(s);
    case ReplaceLine => ReplaceLineSpellings(s);
    case ReplaceSelectedText => ReplaceSelectedTextSpellings(s);
    case InsertAsText => InsertAsTextSpellings(s);
    case InsertAsSnippet => InsertAsSnippetSpellings(s);
    case ShowAsToolTip => ShowAsToolTipSpellings(s);
    case AfterSelectedText => AfterSelectedTextSpellings(s);
    case CreateNewDocument => CreateNewDocumentSpellings(s);
    case ReplaceInput => ReplaceInputSpellings(s);
    case ShowAsHtml => ShowAsHtmlSpellings(s);
    case InsertAfterInput => InsertAfterInputSpellings(s);
  }

  lemma ReplaceDocumentSpellings(s: string)
    ensures OutputKindOf(Some(s)) == ReplaceDocument <==> s in OutputSpellings(ReplaceDocument)
  {
  }

  lemma ReplaceLineSpellings(s: string)
    ensures OutputKindOf(Some(s)) == ReplaceLine <==> s in OutputSpellings(ReplaceLine)
  {
  }

  lemma ReplaceSelectedTextSpellings(s: string)
    ensures OutputKindOf(Some(s)) == ReplaceSelectedText <==> s in OutputSpellings(ReplaceSelectedText)
  {
  }

  lemma InsertAsTextSpellings(s: string)
    ensures OutputKindOf(Some(s)) == InsertAsText <==> s in OutputSpellings(InsertAsText)
  {
  }

  lemma InsertAsSnippetSpellings(s: string)
    ensures OutputKindOf(Some(s)) == InsertAsSnippet <==> s in OutputSpellings(InsertAsSnippet)
  {
  }

  lemma ShowAsToolTipSpellings(s: string)
    ensures OutputKindOf(Some(s)) == ShowAsToolTip <==> s in OutputSpellings(ShowAsToolTip)
  {
  }

  lemma AfterSelectedTextSpellings(s: string)
    ensures OutputKindOf(Some(s)) == AfterSelectedText <==> s in OutputSpellings(AfterSelectedText)
  {
  }

  lemma CreateNewDocumentSpellings(s: string)
    ensures OutputKindOf(Some(s)) == CreateNewDocument <==> s in OutputSpellings(CreateNewDocument)
  {
  }

  lemma ReplaceInputSpellings(s: string)
    ensures OutputKindOf(Some(s)) == ReplaceInput <==> s in OutputSpellings(ReplaceInput)
  {
  }

  lemma ShowAsHtmlSpellings(s: string)
    ensures OutputKindOf(Some(s)) == ShowAsHtml <==> s in OutputSpellings(ShowAsHtml)
  {
  }

  lemma InsertAfterInputSpellings(s: string)
    ensures OutputKindOf(Some(s)) == InsertAfterInput <==> s in OutputSpellings(InsertAfterInput)
  {
  }

  /**
   * `:selection` is read as the selected text, but when it is the input kind
   * that was satisfied, replace_input and insert_after_input ignore it; every
   * other kind they act on is the kind that was read.
   */
  lemma TargetAgreesWithInputKind(sym: Option<string>)
    ensures InputTarget(sym) != Unrecognised ==> InputTarget(sym) == InputKindOf(sym)
    ensures InputKindOf(Some("selection")) == SelectedText
    ensures InputTarget(Some("selection")) == Unrecognised
  {
  }

  // ------------------------------------------------------------- commands

  /** What a command runs: a call of a declared method, another closure, or a shell script. */
  datatype Body = SendsTo(methodName: string) | Closure(arity: int) | Script(source: string)

  /**
   * A command record. `input` and `fallbackInput` are the instance variables
   * `@input` and `@fallback_input` that input resolution reads; nothing in
   * command.rb assigns them, and `inputs` (what the registrar sets) is a
   * separate field.
   */
  datatype Command = Command(
    name: string,
    scope: Option<string>,
    key: Option<string>,
    inputs: Option<seq<string>>,
    output: Option<string>,
    sensitive: Option<bool>,
    input: Option<string>,
    fallbackInput: Option<string>,
    body: Body)

  /**
   * What the tab's widget reports about the cursor: the word bounds when the
   * cursor is inside a word, the text of the scope at the cursor and the
   * span of that scope when the tab supports scope lookup.
   */
  datatype Context = Context(word: Option<(nat, nat)>, scopeText: Option<string>, scopeSpan: Option<(nat, nat)>) {
    predicate FitsIn(text: string) {
      && (word.Some? ==> word.value.0 <= word.value.1 <= |text|)
      && (scopeSpan.Some? ==> scopeSpan.value.0 <= scopeSpan.value.1 <= |text|)
    }
  }

  /** Ruby's `text[lo..hi]`: both ends included, cut short at the end of the text. */
  function InclusiveSlice(text: string, lo: nat, hi: nat): (r: string)
    requires lo <= hi <= |text|
  {
    text[lo..Min(hi + 1, |text|)]
  }

  // --------------------------------------------------------------- inputs

  /** `input_by_type`: the value an input kind reads from the tab, `None` for nil. */
  function InputByType(b: Buffer, ctx: Context, sym: Option<string>): Option<string>
    requires b.Valid() && ctx.FitsIn(b.text)
  {
    match InputKindOf(sym)
    case SelectedText => Some(b.SelectionText())
    case Document => Some(b.text)
    case Line => Some(b.CurrentLine())
    case Word =>
      if ctx.word.None? then None
      else Some(Text.Strip(InclusiveSlice(b.text, ctx.word.value.0, ctx.word.value.1)))
    case Character => if b.cursor < |b.text| then Some([b.text[b.cursor]]) else None
    case Scope => ctx.scopeText
    case Nothing => None
    case Unrecognised => None
  }

  /** `primary_input`: the primary kind's value, an empty string counting as none. */
  function PrimaryInput(cmd: Command, b: Buffer, ctx: Context): (r: Option<string>)
    requires b.Valid() && ctx.FitsIn(b.text)
    ensures r != Some("")
    ensures r.Some? ==> r == InputByType(b, ctx, cmd.input)
    ensures r.None? ==> InputByType(b, ctx, cmd.input) in {None, Some("")}
  {
    var v := InputByType(b, ctx, cmd.input);
    if v == Some("") then None else v
  }

  /** `secondary_input`: the fallback kind's value, taken as it is. */
  function SecondaryInput(cmd: Command, b: Buffer, ctx: Context): Option<string>
    requires b.Valid() && ctx.FitsIn(b.text)
  {
    InputByType(b, ctx, cmd.fallbackInput)
  }

  /** `get_input`: `primary_input || secondary_input`. */
  function GetInput(cmd: Command, b: Buffer, ctx: Context): Option<string>
    requires b.Valid() && ctx.FitsIn(b.text)
  {
    if PrimaryInput(cmd, b, ctx).Some? then PrimaryInput(cmd, b, ctx) else SecondaryInput(cmd, b, ctx)
  }

  /** `valid_input_type`: the symbol of the input kind `get_input` took its value from. */
  function ValidInputType(cmd: Command, b: Buffer, ctx: Context): Option<string>
    requires b.Valid() && ctx.FitsIn(b.text)
  {
    if PrimaryInput(cmd, b, ctx).Some? then cmd.input else cmd.fallbackInput
  }

  /**
   * The primary input wins unless it reads as nil or as the empty string;
   * then the fallback is read, and `valid_input_type` names the fallback
   * under exactly the same condition.
   */
  lemma GetInputRule(cmd: Command, b: Buffer, ctx: Context)
    requires b.Valid() && ctx.FitsIn(b.text)
    ensures var p := InputByType(b, ctx, cmd.input);
      if p.None? || p == Some("") then
        GetInput(cmd, b, ctx) == InputByType(b, ctx, cmd.fallbackInput)
        && ValidInputType(cmd, b, ctx) == cmd.fallbackInput
      else
        GetInput(cmd, b, ctx) == p && ValidInputType(cmd, b, ctx) == cmd.input
  {
  }

  /** `get_input` is always the value of the kind `valid_input_type` names. */
  lemma GetInputReadsValidType(cmd: Command, b: Buffer, ctx: Context)
    requires b.Valid() && ctx.FitsIn(b.text)
    ensures GetInput(cmd, b, ctx) == InputByType(b, ctx, ValidInputType(cmd, b, ctx))
  {
  }

  /** The `:line` input is the whole of the cursor's line and holds no newline. */
  lemma LineInputIsCursorLine(b: Buffer, ctx: Context)
    requires b.Valid() && ctx.FitsIn(b.text)
    ensures var n := b.CursorLine();
      InputByType(b, ctx, Some("line"))
        == Some(b.text[Text.LineStart(b.text, n)..Text.LineEnd(b.text, n)])
      && Text.LineStart(b.text, n) <= b.cursor <= Text.LineEnd(b.text, n)
    ensures '\n' !in InputByType(b, ctx, Some("line")).value
  {
    Text.LineTextHasNoNewline(b.text, b.CursorLine());
  }

  /** The `:character` input is the one character at the cursor, nil at the end of the text. */
  lemma CharacterInput(b: Buffer, ctx: Context)
    requires b.Valid() && ctx.FitsIn(b.text)
    ensures InputByType(b, ctx, Some("character")).Some? <==> b.cursor < |b.text|
    ensures b.cursor < |b.text| ==>
      |InputByType(b, ctx, Some("character")).value| == 1
      && InputByType(b, ctx, Some("character")).value[0] == b.text[b.cursor]
  {
  }

  /** The selected-text input is empty exactly when nothing is selected, and spans the two bounds. */
  lemma SelectionInput(b: Buffer, ctx: Context)
    requires b.Valid() && ctx.FitsIn(b.text)
    ensures var t := InputByType(b, ctx, Some("selected_text"));
      var (x, y) := b.Bounds();
      t.Some? && (t.value == "" <==> !b.Selected())
      && t.value == b.text[Min(x, y)..Max(x, y)]
      && |t.value| == Max(x, y) - Min(x, y)
  {
  }

  /**
   * The `:word` input is nil outside a word; inside one it is the text from
   * the word's start through its end offset with surrounding whitespace
   * removed: the middle piece of that slice, with only whitespace before
   * it and only whitespace or null characters after it, so it neither
   * starts nor ends with whitespace.
   */
  lemma WordInput(b: Buffer, ctx: Context)
    requires b.Valid() && ctx.FitsIn(b.text)
    ensures ctx.word.None? ==> InputByType(b, ctx, Some("word")).None?
    ensures ctx.word.Some? ==>
      var (lo, hi) := ctx.word.value;
      var w := InputByType(b, ctx, Some("word"));
      w.Some? && |w.value| <= Min(hi + 1, |b.text|) - lo
      && (w.value == [] || (!Text.IsSpace(w.value[0]) && !Text.IsSpaceOrNull(w.value[|w.value| - 1])))
    ensures ctx.word.Some? ==>
      var (lo, hi) := ctx.word.value;
      var w := InputByType(b, ctx, Some("word")).value;
      var slice := InclusiveSlice(b.text, lo, hi);
      var j := |Text.RStrip(slice)|;
      && |w| <= j <= |slice|
      && w == slice[j - |w|..j]
      && (forall k :: 0 <= k < j - |w| ==> Text.IsSpace(slice[k]))
      && (forall k :: j <= k < |slice| ==> Text.IsSpaceOrNull(slice[k]))
  {
    assert InputKindOf(Some("word")) == Word;
    if ctx.word.Some? {
      var slice := InclusiveSlice(b.text, ctx.word.value.0, ctx.word.value.1);
      assert InputByType(b, ctx, Some("word")) == Some(Text.Strip(slice));
      Text.StripKeepsPiece(slice);
    }
  }

  // -------------------------------------------------------------- outputs

  /** insert_after_input on selected text: insert after the later bound, then select both bounds moved along. */
  function InsertAfterSelection(b: Buffer, content: string): (r: Buffer)
    requires b.Valid()
    ensures r.Valid()
  {
    var (s, e) := b.Bounds();
    var n := |content|;
    SelectRange(InsertAt(b, Max(s, e), content), s + n, e + n)
  }

  /** insert_after_input on a line: a new last line, or the content at the start of the next line. */
  function InsertAfterLine(b: Buffer, content: string): (r: Buffer)
    requires b.Valid()
    ensures r.Valid()
  {
    var n := b.CursorLine();
    if n == b.LineCount() - 1 then InsertAt(b, Text.LineEnd(b.text, n), "\n" + content)
    else InsertAt(b, Text.LineStart(b.text, n + 1), content)
  }

  /**
   * `direct_output`: the tab after applying `content` with output kind
   * `kind`. The kinds that open a new tab, show a tooltip or expand a
   * snippet leave this tab's state as it was.
   */
  function Output(cmd: Command, b: Buffer, ctx: Context, kind: OutputKind, content: string): (r: Buffer)
    requires b.Valid() && ctx.FitsIn(b.text)
    ensures r.Valid()
  {
    match kind
    case ReplaceDocument => ReplaceText(b, content)
    case ReplaceLine => ReplaceCurrentLine(b, content)
    case ReplaceSelectedText => ReplaceSelection(b, content)
    case InsertAsText => InsertAtCursor(b, content)
    case AfterSelectedText =>
      InsertAt(b, if b.Selected() then b.selection.value.1 else b.cursor, content)
    case ReplaceInput =>
      (match InputTarget(ValidInputType(cmd, b, ctx))
       case SelectedText => ReplaceSelection(b, content)
       case Line => ReplaceCurrentLine(b, content)
       case Document => ReplaceText(b, content)
       case Scope =>
         if ctx.scopeSpan.Some? then ReplaceRange(b, ctx.scopeSpan.value.0, ctx.scopeSpan.value.1, content)
         else b
       case _ => b)
    case InsertAfterInput =>
      (match InputTarget(ValidInputType(cmd, b, ctx))
       case SelectedText => InsertAfterSelection(b, content)
       case Line => InsertAfterLine(b, content)
       case _ => b)
    case _ => b
  }

  /** The `:scope` branch of replace_input: delete the scope's span, then insert `content` where it began. */
  method ReplaceSpan(tab: Tab, lo: nat, hi: nat, content: string)
    requires tab.Valid() && lo <= hi <= |tab.text|
    modifies tab
    ensures tab.Valid() && tab.State() == ReplaceRange(old(tab.State()), lo, hi, content)
  {
    tab.Delete(lo, hi);
    tab.Insert(lo, content);
  }

  /** The `:selected_text` branch of insert_after_input on the tab object. */
  method InsertAfterSelected(tab: Tab, content: string)
    requires tab.Valid()
    modifies tab
    ensures tab.Valid() && tab.State() == InsertAfterSelection(old(tab.State()), content)
  {
    var (s, e) := tab.State().Bounds();
    tab.Insert(Max(s, e), content);
    tab.Select(s + |content|, e + |content|);
  }

  /** The `:line` branch of insert_after_input on the tab object. */
  method InsertAfterCursorLine(tab: Tab, content: string)
    requires tab.Valid()
    modifies tab
    ensures tab.Valid() && tab.State() == InsertAfterLine(old(tab.State()), content)
  {
    var n := tab.State().CursorLine();
    if n == tab.State().LineCount() - 1 {
      tab.Insert(Text.LineEnd(tab.text, n), "\n" + content);
    } else {
      tab.Insert(Text.LineStart(tab.text, n + 1), content);
    }
  }

  /** `direct_output(type, content)` on the tab object. */
  method DirectOutput(cmd: Command, tab: Tab, ctx: Context, kind: OutputKind, content: string)
    requires tab.Valid() && ctx.FitsIn(tab.text)
    modifies tab
    ensures tab.Valid() && tab.State() == Output(cmd, old(tab.State()), ctx, kind, content)
  {
    match kind
    case ReplaceDocument =>
      tab.Replace(content);
    case ReplaceLine =>
      tab.ReplaceLine(content);
    case ReplaceSelectedText =>
      tab.ReplaceSelected(content);
    case InsertAsText =>
      tab.InsertAtCursorPosition(content);
    case AfterSelectedText =>
      var e := if tab.State().Selected() then tab.selection.value.1 else tab.cursor;
      tab.Insert(e, content);
    case ReplaceInput =>
      ReplaceInputOn(cmd, tab, ctx, content);
    case InsertAfterInput =>
      InsertAfterInputOn(cmd, tab, ctx, content);
    case _ =>
  }

  /** The `:replace_input` branch of `direct_output`: replace whatever the input was read from. */
  method ReplaceInputOn(cmd: Command, tab: Tab, ctx: Context, content: string)
    requires tab.Valid() && ctx.FitsIn(tab.text)
    modifies tab
    ensures tab.Valid() && tab.State() == Output(cmd, old(tab.State()), ctx, ReplaceInput, content)
  {
    match InputTarget(ValidInputType(cmd, tab.State(), ctx)) {
      case SelectedText =>
        tab.ReplaceSelected(content);
      case Line =>
        tab.ReplaceLine(content);
      case Document =>
        tab.Replace(content);
      case Scope =>
        if ctx.scopeSpan.Some? {
          ReplaceSpan(tab, ctx.scopeSpan.value.0, ctx.scopeSpan.value.1, content);
        }
      case _ =>
    }
  }

  /** The `:insert_after_input` branch of `direct_output`: insert after whatever the input was read from. */
  method InsertAfterInputOn(cmd: Command, tab: Tab, ctx: Context, content: string)
    requires tab.Valid() && ctx.FitsIn(tab.text)
    modifies tab
    ensures tab.Valid() && tab.State() == Output(cmd, old(tab.State()), ctx, InsertAfterInput, content)
  {
    match InputTarget(ValidInputType(cmd, tab.State(), ctx)) {
      case SelectedText =>
        InsertAfterSelected(tab, content);
      case Line =>
        InsertAfterCursorLine(tab, content);
      case _ =>
    }
  }

  /** The replace kinds put `content` exactly where the replaced text was. */
  lemma ReplacementsPlaceContent(cmd: Command, b: Buffer, ctx: Context, content: string)
    requires b.Valid() && ctx.FitsIn(b.text)
    ensures Output(cmd, b, ctx, ReplaceDocument, content).text == content
    ensures var n := b.CursorLine();
      Output(cmd, b, ctx, ReplaceLine, content).text
        == b.text[..Text.LineStart(b.text, n)] + content + b.text[Text.LineEnd(b.text, n)..]
    ensures var (x, y) := b.Bounds();
      Output(cmd, b, ctx, ReplaceSelectedText, content).text
        == b.text[..Min(x, y)] + content + b.text[Max(x, y)..]
    ensures Output(cmd, b, ctx, InsertAsText, content).text
      == b.text[..b.cursor] + content + b.text[b.cursor..]
  {
  }

  /**
   * after_selected_text inserts at the second selection bound, or at the
   * cursor when nothing is selected, and deletes nothing.
   */
  lemma AfterSelectedTextOnlyInserts(cmd: Command, b: Buffer, ctx: Context, content: string)
    requires b.Valid() && ctx.FitsIn(b.text)
    ensures var p := if b.Selected() then b.selection.value.1 else b.cursor;
      var t := Output(cmd, b, ctx, AfterSelectedText, content).text;
      p <= |b.text| && |t| == |b.text| + |content|
      && t[..p] == b.text[..p]
      && t[p..p + |content|] == content
      && t[p + |content|..] == b.text[p..]
  {
    var p := if b.Selected() then b.selection.value.1 else b.cursor;
    var t := Output(cmd, b, ctx, AfterSelectedText, content).text;
    assert t == b.text[..p] + content + b.text[p..];
  }

  /**
   * insert_after_input when the selected text was the input: `content` goes
   * in at the later of the two bounds, the text grows by its length, and
   * the new selection is both old bounds moved along by that length.
   */
  lemma InsertAfterSelectedText(cmd: Command, b: Buffer, ctx: Context, content: string)
    requires b.Valid() && ctx.FitsIn(b.text)
    requires InputTarget(ValidInputType(cmd, b, ctx)) == SelectedText
    ensures var (s, e) := b.Bounds();
      var n := |content|;
      var r := Output(cmd, b, ctx, InsertAfterInput, content);
      && r.text == b.text[..Max(s, e)] + content + b.text[Max(s, e)..]
      && |r.text| == |b.text| + n
      && (b.Selected() ==> r.selection == Some((s + n, e + n)))
      && (!b.Selected() ==> r.selection == None)
  {
  }

  /**
   * insert_after_input when the cursor's line was the input. On the last
   * line it appends a newline and `content` to the text; otherwise it puts
   * `content` at the start of the next line. Either way everything up to
   * the end of the cursor's line is untouched, that line reads as before,
   * and `content` begins the line after it.
   */
  lemma InsertAfterInputLine(cmd: Command, b: Buffer, ctx: Context, content: string)
    requires b.Valid() && ctx.FitsIn(b.text)
    requires InputTarget(ValidInputType(cmd, b, ctx)) == Line
    ensures Output(cmd, b, ctx, InsertAfterInput, content) == InsertAfterLine(b, content)
    ensures LineKeptBeforeContent(b, InsertAfterLine(b, content).text, content)
  {
    if b.CursorLine() == b.LineCount() - 1 {
      LastLineKept(b, content);
    } else {
      InnerLineKept(b, content);
    }
  }

  lemma LastLineKept(b: Buffer, content: string)
    requires b.Valid() && b.CursorLine() == b.LineCount() - 1
    ensures LineKeptBeforeContent(b, InsertAfterLine(b, content).text, content)
  {
    var s, n := b.text, b.CursorLine();
    var t := InsertAfterLine(b, content).text;
    assert Text.LineEnd(s, n) == |s|;
    assert t == s[..|s|] + ("\n" + content) + s[|s|..];
    assert t == s + "\n" + content;
    AppendedLine(s, n, content);
    assert t[|s| + 1..|s| + 1 + |content|] == content;
  }

  lemma InnerLineKept(b: Buffer, content: string)
    requires b.Valid() && b.CursorLine() < b.LineCount() - 1
    ensures LineKeptBeforeContent(b, InsertAfterLine(b, content).text, content)
  {
    var s, n := b.text, b.CursorLine();
    var p := Text.LineStart(s, n + 1);
    var t := InsertAfterLine(b, content).text;
    assert t == s[..p] + content + s[p..];
    InsertedLine(s, n, content);
    assert t[..Text.LineEnd(s, n)] == s[..Text.LineEnd(s, n)];
    assert t[p..p + |content|] == content;
  }

  /**
   * `t` keeps the text of `b` up to the end of the cursor's line, so that
   * line reads as before, and `content` begins the line after it: placed
   * at the end of the text after a new newline when the cursor is on the
   * last line, at the start of the next line otherwise.
   */
  ghost predicate LineKeptBeforeContent(b: Buffer, t: string, content: string)
    requires b.Valid()
  {
    var s := b.text;
    var n := b.CursorLine();
    && (n == b.LineCount() - 1 ==> t == s + "\n" + content)
    && (n < b.LineCount() - 1 ==>
          var p := Text.LineStart(s, n + 1);
          t == s[..p] + content + s[p..])
    && |t| >= Text.LineEnd(s, n)
    && t[..Text.LineEnd(s, n)] == s[..Text.LineEnd(s, n)]
    && n + 1 <= |Text.Newlines(t)|
    && Text.LineText(t, n) == Text.LineText(s, n)
    && Text.LineStart(t, n + 1) + |content| <= |t|
    && t[Text.LineStart(t, n + 1)..Text.LineStart(t, n + 1) + |content|] == content
  }

  /** A newline and `content` appended after the last line `n` keep that line and start a new one with `content`. */
  lemma AppendedLine(s: string, n: nat, content: string)
    requires n == |Text.Newlines(s)|
    ensures var t := s + "\n" + content;
      && t[..Text.LineEnd(s, n)] == s[..Text.LineEnd(s, n)]
      && n + 1 <= |Text.Newlines(t)|
      && Text.LineText(t, n) == Text.LineText(s, n)
      && Text.LineStart(t, n + 1) == |s| + 1
      && t[|s| + 1..] == content
  {
    var a := s + "\n";
    var t := s + "\n" + content;
    assert t == a + content;
    assert a[..|a| - 1] == s;
    assert Text.Newlines(a) == Text.Newlines(s) + [|s|];
    Text.KeptLine(a, content, n);
    assert Text.LineText(a, n) == s[Text.LineStart(s, n)..|s|];
    Text.KeptOpenLineStart(a, content);
  }

  /** `content` inserted at the start of line `n + 1` keeps line `n` and begins the new line `n + 1`. */
  lemma InsertedLine(s: string, n: nat, content: string)
    requires n < |Text.Newlines(s)|
    ensures var p := Text.LineStart(s, n + 1);
      var t := s[..p] + content + s[p..];
      && Text.LineEnd(s, n) < p
      && n + 1 <= |Text.Newlines(t)|
      && Text.LineText(t, n) == Text.LineText(s, n)
      && Text.LineStart(t, n + 1) == p
  {
    var p := Text.LineStart(s, n + 1);
    Text.NewlinesThroughLine(s, n);
    var a := s[..p];
    var t := s[..p] + content + s[p..];
    assert t == a + (content + s[p..]);
    assert s == a + s[p..];
    Text.KeptLine(a, content + s[p..], n);
    Text.KeptLine(a, s[p..], n);
    Text.KeptOpenLineStart(a, content + s[p..]);
  }

  /** replace_input does what the output kind of the satisfied input kind does. */
  lemma ReplaceInputFollowsValidType(cmd: Command, b: Buffer, ctx: Context, content: string)
    requires b.Valid() && ctx.FitsIn(b.text)
    ensures var k := InputTarget(ValidInputType(cmd, b, ctx));
      var r := Output(cmd, b, ctx, ReplaceInput, content);
      && (k == SelectedText ==> r == Output(cmd, b, ctx, ReplaceSelectedText, content))
      && (k == Line ==> r == Output(cmd, b, ctx, ReplaceLine, content))
      && (k == Document ==> r == Output(cmd, b, ctx, ReplaceDocument, content))
      && (k == Scope && ctx.scopeSpan.Some? ==>
            r.text == b.text[..ctx.scopeSpan.value.0] + content + b.text[ctx.scopeSpan.value.1..])
      && (k !in {SelectedText, Line, Document, Scope} ==> r == b)
  {
  }

  /** The kinds that open another tab or a widget, and a kind no `when` names, leave this tab unchanged. */
  lemma OutputsLeavingTabAlone(cmd: Command, b: Buffer, ctx: Context, kind: OutputKind, content: string)
    requires b.Valid() && ctx.FitsIn(b.text)
    requires kind in {InsertAsSnippet, ShowAsToolTip, CreateNewDocument, ShowAsHtml, Unmatched}
    ensures Output(cmd, b, ctx, kind, content) == b
  {
  }

  // ------------------------------------------------------ command bodies

  /** How a block is called: with no argument, or with the command's input. */
  datatype Arguments = NoArguments | WithInput(input: Option<string>)

  /** The Ruby values a block comes to: a string, nil, `false` or `true`. */
  datatype Value = Str(text: string) | Nil | False | True

  /** Ruby's truth: everything but nil and `false`. */
  predicate Truthy(v: Value) {
    !v.Nil? && !v.False?
  }

  /** What calling a block came to: a returned value, or a raised error. */
  datatype BlockOutcome = Returned(value: Value) | Raised

  /** InlineCommand#execute passes `get_input` exactly to a block of arity one. */
  function BlockArguments(cmd: Command, b: Buffer, ctx: Context): (a: Arguments)
    requires b.Valid() && ctx.FitsIn(b.text)
    ensures a.WithInput? <==> cmd.body.Closure? && cmd.body.arity == 1
    ensures a.WithInput? ==> a.input == GetInput(cmd, b, ctx)
  {
    if cmd.body.Closure? && cmd.body.arity == 1 then WithInput(GetInput(cmd, b, ctx)) else NoArguments
  }

  /**
   * The value InlineCommand#execute hands to `direct_output`: any truthy
   * returned value, the empty string included; nothing after nil, `false`
   * or a raised error.
   */
  function Forwarded(outcome: BlockOutcome): (r: Option<Value>)
    ensures r.Some? <==> outcome.Returned? && Truthy(outcome.value)
    ensures r.Some? ==> r.value == outcome.value
  {
    match outcome
    case Returned(v) => if Truthy(v) then Some(v) else None
    case Raised => None
  }

  /**
   * InlineCommand#execute. `block` stands for the closure: what it comes to
   * for the arguments it is given. The closure is the command's own work and
   * may edit the tab: `after` is the tab as the closure leaves it, and
   * `afterCtx` what the widget reports about that tab. The input is read
   * before the closure runs; `direct_output` acts on the tab the closure
   * left, and reads the input kind again from it. `handed` is what is
   * handed to `direct_output`; only a string is written to the tab.
   */
  method ExecuteInline(cmd: Command, tab: Tab, ctx: Context, block: Arguments -> BlockOutcome,
                       after: Buffer, afterCtx: Context)
    returns (args: Arguments, handed: Option<Value>)
    requires !cmd.body.Script?
    requires tab.Valid() && ctx.FitsIn(tab.text)
    requires after.Valid() && afterCtx.FitsIn(after.text)
    modifies tab
    ensures args == BlockArguments(cmd, old(tab.State()), ctx)
    ensures tab.Valid()
    ensures handed == Forwarded(block(args))
    ensures handed.Some? && handed.value.Str? ==>
      tab.State() == Output(cmd, after, afterCtx, OutputKindOf(cmd.output), handed.value.text)
    ensures !(handed.Some? && handed.value.Str?) ==> tab.State() == after
  {
    args := BlockArguments(cmd, tab.State(), ctx);
    var outcome := block(args);
    tab.Become(after);
    handed := Forwarded(outcome);
    if handed.Some? && handed.value.Str? {
      DirectOutput(cmd, tab, afterCtx, OutputKindOf(cmd.output), handed.value.text);
    }
  }

  /** The script path and the command line ShellCommand runs it with. */
  const ScriptCommand := "./cache/tmp.command"
  const ShellScriptCommand := "/bin/sh cache/tmp.command"

  /** `shell_command`: run the script directly exactly when it starts with a shebang. */
  function ShellCommandLine(script: string): (r: string)
    ensures r == ScriptCommand <==> |script| >= 2 && script[..2] == "#!"
    ensures r == ScriptCommand || r == ShellScriptCommand
  {
    if |script| >= 2 && script[..2] == "#!" then ScriptCommand else ShellScriptCommand
  }

  /**
   * The parts of ShellCommand#execute that concern the command model: what is written
   * to the script's standard input (nil writes nothing), the command line,
   * and `direct_output` of everything the script printed, given as `stdout`.
   */
  method ExecuteShell(cmd: Command, tab: Tab, ctx: Context, stdout: string)
    returns (stdin: string, commandLine: string)
    requires cmd.body.Script?
    requires tab.Valid() && ctx.FitsIn(tab.text)
    modifies tab
    ensures stdin == GetInput(cmd, old(tab.State()), ctx).GetOr("")
    ensures commandLine == ShellCommandLine(cmd.body.source)
    ensures tab.Valid()
    ensures tab.State() == Output(cmd, old(tab.State()), ctx, OutputKindOf(cmd.output), stdout)
  {
    stdin := GetInput(cmd, tab.State(), ctx).GetOr("");
    commandLine := ShellCommandLine(cmd.body.source);
    DirectOutput(cmd, tab, ctx, OutputKindOf(cmd.output), stdout);
  }
}
