/** The editor widget of the Undo example: a view over an optional document
    with a caret position, a caret-visibility flag for blinking, and a cap of
    `MaxLength` characters on what typing may produce. Every navigation and
    edit makes the caret visible again. */
module UndoEditor {
  import opened Optional
  import opened UndoDocument
  import opened WideChar

  /** The longest document typing may produce. */
  const MaxLength: nat := 10

  datatype Editor = Editor(doc: Option<Document>, caret: nat, caretVisible: bool)

  /** Virtual-key codes the editor reacts to; `OtherKey` is any other key. */
  datatype Key = Home | End | Left | Right | Back | Delete | OtherKey

  datatype KeyEvent = KeyEvent(key: Key, charCode: Char)

  /** The class invariant: the caret lies inside the document, and is at 0
      when there is no document. */
  predicate Valid(e: Editor) {
    match e.doc
    case None => e.caret == 0
    case Some(d) => e.caret <= Size(d)
  }

  /** The text of the current document, or the empty text without one. */
  function Text(e: Editor): String {
    match e.doc
    case None => []
    case Some(d) => d.text
  }

  /** A freshly constructed editor: no document, caret at 0 and visible. */
  function Init(): (e: Editor)
    ensures Valid(e) && e.doc.None? && e.caretVisible
  {
    Editor(None, 0, true)
  }

  /** Installs a document (or none) and puts the caret at its end. */
  function SetDocument(e: Editor, doc: Option<Document>): (r: Editor)
    ensures Valid(r) && r.doc == doc && r.caretVisible
    ensures doc.None? ==> r.caret == 0
    ensures doc.Some? ==> r.caret == Size(doc.value)
  {
    Editor(doc, if doc.Some? then Size(doc.value) else 0, true)
  }

  /** Home: the caret goes to the start of the line. */
  function GoBeginOfLine(e: Editor): (r: Editor)
    ensures Valid(r) && r.doc == e.doc && r.caretVisible
    ensures r.caret == 0
  {
    e.(caret := 0, caretVisible := true)
  }

  /** End: the caret goes past the last character. */
  function GoEndOfLine(e: Editor): (r: Editor)
    requires e.doc.Some?
    ensures Valid(r) && r.doc == e.doc && r.caretVisible
    ensures r.caret == Size(e.doc.value)
  {
    e.(caret := Size(e.doc.value), caretVisible := true)
  }

  /** Left arrow: one character back, stopping at the start. */
  function GoPreviousChar(e: Editor): (r: Editor)
    ensures Valid(e) ==> Valid(r)
    ensures r.doc == e.doc && r.caretVisible
    ensures e.caret == 0 ==> r.caret == 0
    ensures e.caret > 0 ==> r.caret + 1 == e.caret
  {
    if e.caret > 0 then e.(caret := e.caret - 1, caretVisible := true)
    else e.(caretVisible := true)
  }

  /** Right arrow: one character forward, stopping at the end. */
  function GoNextChar(e: Editor): (r: Editor)
    requires e.doc.Some?
    ensures Valid(e) ==> Valid(r)
    ensures r.doc == e.doc && r.caretVisible
    ensures e.caret >= Size(e.doc.value) ==> r.caret == e.caret
    ensures e.caret < Size(e.doc.value) ==> r.caret == e.caret + 1
  {
    if e.caret < Size(e.doc.value) then e.(caret := e.caret + 1, caretVisible := true)
    else e.(caretVisible := true)
  }

  /** Backspace: erases the character before the caret and moves the caret
      back onto its place; nothing at the start of the line. */
  function RemovePreviousChar(e: Editor): (r: Editor)
    requires Valid(e)
    ensures Valid(r) && r.caretVisible
    ensures e.caret == 0 ==> r.doc == e.doc && r.caret == 0
    ensures e.caret > 0 ==> r.caret + 1 == e.caret
    ensures e.caret > 0 ==> r.doc == Some(Remove(e.doc.value, e.caret - 1, 1).doc)
    ensures e.caret > 0 ==> Size(r.doc.value) + 1 == Size(e.doc.value)
  {
    if e.caret > 0 then
      match Remove(e.doc.value, e.caret - 1, 1)
      case Ok(d) => Editor(Some(d), e.caret - 1, true)
      case OutOfRange => e.(caretVisible := true)
    else e.(caretVisible := true)
  }

  /** Delete: erases the character under the caret, which stays in place;
      nothing at the end of the line. */
  function RemoveNextChar(e: Editor): (r: Editor)
    requires e.doc.Some?
    ensures Valid(e) ==> Valid(r)
    ensures r.caret == e.caret && r.caretVisible && r.doc.Some?
    ensures e.caret >= Size(e.doc.value) ==> r.doc == e.doc
    ensures e.caret < Size(e.doc.value) ==> r.doc == Some(Remove(e.doc.value, e.caret, 1).doc)
    ensures e.caret < Size(e.doc.value) ==> Size(r.doc.value) + 1 == Size(e.doc.value)
  {
    if e.caret < Size(e.doc.value) then
      match Remove(e.doc.value, e.caret, 1)
      case Ok(d) => e.(doc := Some(d), caretVisible := true)
      case OutOfRange => e.(caretVisible := true)
    else e.(caretVisible := true)
  }

  /** Typing: inserts `c` at the caret and advances the caret, unless the
      document already holds `MaxLength` characters or more. */
  function WriteChar(e: Editor, c: Char): (r: Editor)
    requires e.doc.Some? && Valid(e)
    ensures Valid(r) && r.caretVisible && r.doc.Some?
    ensures Size(e.doc.value) >= MaxLength ==> r.doc == e.doc && r.caret == e.caret
    ensures Size(e.doc.value) < MaxLength ==> r.caret == e.caret + 1
    ensures Size(e.doc.value) < MaxLength ==> r.doc == Some(AddChar(e.doc.value, e.caret, c).doc)
    ensures Size(e.doc.value) <= MaxLength ==> Size(r.doc.value) <= MaxLength
  {
    if Size(e.doc.value) < MaxLength then
      match AddChar(e.doc.value, e.caret, c)
      case Ok(d) => Editor(Some(d), e.caret + 1, true)
      case OutOfRange => e.(caretVisible := true)
    else e.(caretVisible := true)
  }

  /** The blink timer's tick: flips the caret's visibility, nothing else. */
  function ToggleCaretVisibility(e: Editor): (r: Editor)
    ensures r.caretVisible == !e.caretVisible
    ensures r.doc == e.doc && r.caret == e.caret
  {
    e.(caretVisible := !e.caretVisible)
  }

  /** Key dispatch: without a document nothing happens; the six editing keys
      call their operation; any other key types its character when that
      character is at least a space. */
  function OnKeyDown(e: Editor, ev: KeyEvent): (r: Editor)
    requires Valid(e)
    ensures Valid(r)
    ensures e.doc.None? ==> r == e
    ensures e.doc.Some? ==> r.doc.Some? && r.doc.value.name == e.doc.value.name
    ensures ev.key.OtherKey? && ev.charCode < Space ==> r == e
    ensures Size(e.doc.GetOr(New([]))) <= MaxLength ==> Size(r.doc.GetOr(New([]))) <= MaxLength
  {
    if e.doc.None? then e
    else
      match ev.key
      case Home => GoBeginOfLine(e)
      case End => GoEndOfLine(e)
      case Left => GoPreviousChar(e)
      case Right => GoNextChar(e)
      case Back => RemovePreviousChar(e)
      case Delete => RemoveNextChar(e)
      case OtherKey => if ev.charCode >= Space then WriteChar(e, ev.charCode) else e
  }

  /** Typing a character into a document with room and erasing it with
      Backspace restores the document and the caret. */
  lemma WriteThenBackspace(e: Editor, c: Char)
    requires Valid(e) && e.doc.Some? && Size(e.doc.value) < MaxLength
    ensures RemovePreviousChar(WriteChar(e, c)) == e.(caretVisible := true)
  {
    AddCharThenRemove(e.doc.value, e.caret, c);
  }

  /** A sequence of key presses, handled one after the other. */
  function OnKeys(e: Editor, evs: seq<KeyEvent>): (r: Editor)
    requires Valid(e)
    ensures Valid(r)
    ensures e.doc.None? ==> r == e
    ensures e.doc.Some? ==> r.doc.Some? && r.doc.value.name == e.doc.value.name
    ensures Size(e.doc.GetOr(New([]))) <= MaxLength ==> Size(r.doc.GetOr(New([]))) <= MaxLength
    decreases |evs|
  {
    if |evs| == 0 then e else OnKeys(OnKeyDown(e, evs[0]), evs[1..])
  }

  // An independent description of editing: the text split at the caret into
  // the part before it and the part after it.

  datatype Cursor = Cursor(before: String, after: String)

  /** The editor seen as text before and after the caret. */
  function View(e: Editor): (v: Cursor)
    requires Valid(e)
    ensures v.before + v.after == Text(e)
    ensures |v.before| == e.caret
  {
    var t := Text(e);
    Cursor(t[..e.caret], t[e.caret..])
  }

  /** What each key does to the text around the caret. */
  function CursorKey(v: Cursor, ev: KeyEvent): Cursor {
    match ev.key
    case Home => Cursor([], v.before + v.after)
    case End => Cursor(v.before + v.after, [])
    case Left =>
      if |v.before| == 0 then v
      else Cursor(v.before[..|v.before| - 1], [v.before[|v.before| - 1]] + v.after)
    case Right =>
      if |v.after| == 0 then v else Cursor(v.before + [v.after[0]], v.after[1..])
    case Back =>
      if |v.before| == 0 then v else Cursor(v.before[..|v.before| - 1], v.after)
    case Delete =>
      if |v.after| == 0 then v else Cursor(v.before, v.after[1..])
    case OtherKey =>
      if ev.charCode >= Space && |v.before| + |v.after| < MaxLength
      then Cursor(v.before + [ev.charCode], v.after)
      else v
  }

  lemma LeftMatchesCursor(e: Editor)
    requires Valid(e) && e.doc.Some?
    ensures View(GoPreviousChar(e)) == CursorKey(View(e), KeyEvent(Left, Space))
  {
    var v := View(e);
    if e.caret > 0 {
      assert Text(e)[e.caret - 1..] == [v.before[|v.before| - 1]] + v.after;
    }
  }

  lemma RightMatchesCursor(e: Editor)
    requires Valid(e) && e.doc.Some?
    ensures View(GoNextChar(e)) == CursorKey(View(e), KeyEvent(Right, Space))
  {
    var v := View(e);
    if e.caret < |Text(e)| {
      assert Text(e)[..e.caret + 1] == v.before + [v.after[0]];
    }
  }

  lemma BackMatchesCursor(e: Editor)
    requires Valid(e) && e.doc.Some?
    ensures View(RemovePreviousChar(e)) == CursorKey(View(e), KeyEvent(Back, Space))
  {
    var t := Text(e);
    var v := View(e);
    if e.caret > 0 {
      var t' := Text(RemovePreviousChar(e));
      assert t' == t[..e.caret - 1] + t[e.caret..];
      assert t'[..e.caret - 1] == v.before[..|v.before| - 1];
    }
  }

  lemma DeleteMatchesCursor(e: Editor)
    requires Valid(e) && e.doc.Some?
    ensures View(RemoveNextChar(e)) == CursorKey(View(e), KeyEvent(Delete, Space))
  {
    var t := Text(e);
    var v := View(e);
    if e.caret < |t| {
      var t' := Text(RemoveNextChar(e));
      assert t' == t[..e.caret] + t[e.caret + 1..];
      assert t'[e.caret..] == v.after[1..];
    }
  }

  lemma TypeMatchesCursor(e: Editor, c: Char)
    requires Valid(e) && e.doc.Some? && c >= Space
    ensures View(WriteChar(e, c)) == CursorKey(View(e), KeyEvent(OtherKey, c))
  {
    var t := Text(e);
    var v := View(e);
    if |t| < MaxLength {
      var t' := Text(WriteChar(e, c));
      assert t' == t[..e.caret] + [c] + t[e.caret..];
      assert t'[..e.caret + 1] == v.before + [c];
    }
  }

  /** With a document installed, the key dispatch acts on the text around the
      caret exactly as `CursorKey` describes. */
  lemma KeyDownMatchesCursor(e: Editor, ev: KeyEvent)
    requires Valid(e) && e.doc.Some?
    ensures View(OnKeyDown(e, ev)) == CursorKey(View(e), ev)
  {
    match ev.key
    case Home =>
    case End =>
    case Left => LeftMatchesCursor(e);
    case Right => RightMatchesCursor(e);
    case Back => BackMatchesCursor(e);
    case Delete => DeleteMatchesCursor(e);
    case OtherKey =>
      if ev.charCode >= Space {
        TypeMatchesCursor(e, ev.charCode);
      }
  }
}
