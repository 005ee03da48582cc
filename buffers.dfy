/**
 * The editor tab the commands read from and write to. Its widget is not
 * part of this model; its primitive operations are given the meaning
 * below: inserting text moves every position at or after the insertion
 * point along, deleting a span pulls later positions back, the replace
 * operations delete and then insert, and a selection whose two bounds
 * meet is no selection.
 */
module Buffers {
  import opened Wrappers
  import Text

  function Min(a: nat, b: nat): nat { if a <= b then a else b }
  function Max(a: nat, b: nat): nat { if a <= b then b else a }

  /**
   * What a tab holds: its text, the cursor offset, and the selection bounds
   * when something is selected, in the order the tab reports them.
   */
  datatype Buffer = Buffer(text: string, cursor: nat, selection: Option<(nat, nat)>) {

    predicate Valid() {
      && cursor <= |text|
      && (selection.Some? ==>
            selection.value.0 <= |text| && selection.value.1 <= |text|
            && selection.value.0 != selection.value.1)
    }

    /** `tab.selected?` */
    predicate Selected() {
      selection.Some?
    }

    /** `tab.selection_bounds`: both bounds sit at the cursor when nothing is selected. */
    function Bounds(): (nat, nat) {
      if selection.Some? then selection.value else (cursor, cursor)
    }

    /** `tab.selection`: the selected text, empty when nothing is selected. */
    function SelectionText(): string
      requires Valid()
    {
      text[Min(Bounds().0, Bounds().1)..Max(Bounds().0, Bounds().1)]
    }

    /** `tab.cursor_line`: the line the cursor is on, counting from 0. */
    function CursorLine(): (n: nat)
      requires Valid()
      ensures n <= |Text.Newlines(text)|
      ensures Text.LineStart(text, n) <= cursor <= Text.LineEnd(text, n)
    {
      Text.LineOf(text, cursor)
    }

    /** `tab.line_count` */
    function LineCount(): nat {
      Text.LineCount(text)
    }

    /** `tab.get_line`: the text of the cursor's line. */
    function CurrentLine(): string
      requires Valid()
    {
      Text.LineText(text, CursorLine())
    }
  }

  /** Where position `p` ends up when `n` characters are inserted at `off`. */
  function Pushed(p: nat, off: nat, n: nat): nat {
    if p >= off then p + n else p
  }

  /** Where position `p` ends up when the span from `lo` to `hi` is deleted. */
  function Pulled(p: nat, lo: nat, hi: nat): nat
    requires lo <= hi
  {
    if p <= lo then p else if p >= hi then p - (hi - lo) else lo
  }

  /** `tab.insert(off, s)` */
  function InsertAt(b: Buffer, off: nat, s: string): (r: Buffer)
    requires b.Valid() && off <= |b.text|
    ensures r.Valid()
    ensures r.text == b.text[..off] + s + b.text[off..]
  {
    var sel := match b.selection
      case None => None
      case Some((x, y)) => Some((Pushed(x, off, |s|), Pushed(y, off, |s|)));
    Buffer(b.text[..off] + s + b.text[off..], Pushed(b.cursor, off, |s|), sel)
  }

  /** `tab.delete(lo, hi)` */
  function DeleteRange(b: Buffer, lo: nat, hi: nat): (r: Buffer)
    requires b.Valid() && lo <= hi <= |b.text|
    ensures r.Valid()
    ensures r.text == b.text[..lo] + b.text[hi..]
  {
    var sel := match b.selection
      case None => None
      case Some((x, y)) =>
        if Pulled(x, lo, hi) == Pulled(y, lo, hi) then None
        else Some((Pulled(x, lo, hi), Pulled(y, lo, hi)));
    Buffer(b.text[..lo] + b.text[hi..], Pulled(b.cursor, lo, hi), sel)
  }

  /** The span from `lo` to `hi` deleted and `s` inserted in its place. */
  function ReplaceRange(b: Buffer, lo: nat, hi: nat, s: string): (r: Buffer)
    requires b.Valid() && lo <= hi <= |b.text|
    ensures r.Valid()
    ensures r.text == b.text[..lo] + s + b.text[hi..]
  {
    var d := DeleteRange(b, lo, hi);
    assert d.text[..lo] == b.text[..lo] && d.text[lo..] == b.text[hi..];
    InsertAt(d, lo, s)
  }

  /** `tab.replace(s)`: the whole text replaced. */
  function ReplaceText(b: Buffer, s: string): (r: Buffer)
    requires b.Valid()
    ensures r.Valid() && r.text == s
  {
    ReplaceRange(b, 0, |b.text|, s)
  }

  /** `tab.replace_line(s)`: the cursor's line replaced, its newline kept. */
  function ReplaceCurrentLine(b: Buffer, s: string): (r: Buffer)
    requires b.Valid()
    ensures r.Valid()
  {
    var n := b.CursorLine();
    ReplaceRange(b, Text.LineStart(b.text, n), Text.LineEnd(b.text, n), s)
  }

  /** `tab.replace_selection(s)`: the selection replaced, or `s` inserted at the cursor when nothing is selected. */
  function ReplaceSelection(b: Buffer, s: string): (r: Buffer)
    requires b.Valid()
    ensures r.Valid()
  {
    var (x, y) := b.Bounds();
    ReplaceRange(b, Min(x, y), Max(x, y), s)
  }

  /** `tab.insert_at_cursor(s)` */
  function InsertAtCursor(b: Buffer, s: string): (r: Buffer)
    requires b.Valid()
    ensures r.Valid()
  {
    InsertAt(b, b.cursor, s)
  }

  /** `tab.select(x, y)` */
  function SelectRange(b: Buffer, x: nat, y: nat): (r: Buffer)
    requires b.Valid() && x <= |b.text| && y <= |b.text|
    ensures r.Valid()
  {
    b.(selection := if x == y then None else Some((x, y)))
  }

  /** The tab object; each method changes its state as the function of the same name says. */
  class Tab {
    var text: string
    var cursor: nat
    var selection: Option<(nat, nat)>

    function State(): Buffer
      reads this
    {
      Buffer(text, cursor, selection)
    }

    predicate Valid()
      reads this
    {
      State().Valid()
    }

    constructor (b: Buffer)
      requires b.Valid()
      ensures Valid() && State() == b
    {
      text, cursor, selection := b.text, b.cursor, b.selection;
    }

    /** Makes `b` the tab's state. */
    method Become(b: Buffer)
      requires b.Valid()
      modifies this
      ensures Valid() && State() == b
    {
      text, cursor, selection := b.text, b.cursor, b.selection;
    }

    method Replace(s: string)
      requires Valid()
      modifies this
      ensures Valid() && State() == ReplaceText(old(State()), s)
    {
      Become(ReplaceText(State(), s));
    }

    method ReplaceLine(s: string)
      requires Valid()
      modifies this
      ensures Valid() && State() == ReplaceCurrentLine(old(State()), s)
    {
      Become(ReplaceCurrentLine(State(), s));
    }

    method ReplaceSelected(s: string)
      requires Valid()
      modifies this
      ensures Valid() && State() == ReplaceSelection(old(State()), s)
    {
      Become(ReplaceSelection(State(), s));
    }

    method InsertAtCursorPosition(s: string)
      requires Valid()
      modifies this
      ensures Valid() && State() == InsertAtCursor(old(State()), s)
    {
      Become(InsertAtCursor(State(), s));
    }

    method Insert(off: nat, s: string)
      requires Valid() && off <= |text|
      modifies this
      ensures Valid() && State() == InsertAt(old(State()), off, s)
    {
      Become(InsertAt(State(), off, s));
    }

    method Delete(lo: nat, hi: nat)
      requires Valid() && lo <= hi <= |text|
      modifies this
      ensures Valid() && State() == DeleteRange(old(State()), lo, hi)
    {
      Become(DeleteRange(State(), lo, hi));
    }

    method Select(x: nat, y: nat)
      requires Valid() && x <= |text| && y <= |text|
      modifies this
      ensures Valid() && State() == SelectRange(old(State()), x, y)
    {
      Become(SelectRange(State(), x, y));
    }
  }
}
