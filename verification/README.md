# Vaca: sequential pieces of the toolkit, modelled in Dafny

Vaca is a C++ widget toolkit over the Win32 API. Most of it wraps operating-system calls.
This project models the few parts that are plain sequential logic, as immutable datatypes,
pure transition functions and lemmas:

- **Undo example document** (`UndoDocument`, document.dfy). A named character buffer with
  positional insert of a character or a string, erase and indexed read. The underlying string
  throws `out_of_range` when an insert or erase position lies past the end, and when a read
  position lies at or past the end. Here that throw is the `OutOfRange` edit outcome, or a
  `None` answer from `At`.
- **Undo example editor** (`UndoEditor`, editor.dfy). An optional document, a caret, the
  caret-visibility flag and a 10-character cap on typing. It has home, end, left, right,
  backspace, delete, typing, the blink toggle and the key dispatch. Its class invariant is
  `Valid`: the caret lies in `[0, size]`, and at 0 when there is no document. Its partner is an
  independent description, `CursorKey`, of each key on the text split at the caret.
- **Pausable work** (`ProgressBars`, progress_bars.dfy). The five-state machine behind the
  Start/Pause/Continue/Restart button and the close handler. It includes the work loop that
  pumps the message queue and then advances two progress bars in lockstep within 0..100.
- **Status bar layout** (`StatusBar`, status_bar.dfy). A 24-pixel strip is carved off the
  bottom of the layout area, and the rest is handed on.
- **LikeScript handlers** (`LikeScript`, like_script.dfy). The digit-only key filter and the
  resize hook that blocks vertical resizing.
- **Commands** (`Commands`, command.dfy). Command ids, the base defaults (enabled, not
  checked) and the signal-backed command. Its connected slots are sequences of callable
  identities.
- **Layout ownership** (`LayoutOwnership`, layout_ownership.dfy). The documented
  `setLayout` protocol, as a ledger of deletes that makes a double delete visible. As
  `doc/pages/tn011.h` documents it, a widget deletes only the layout installed when it is
  destroyed; a replaced layout is not deleted by the widget, and `setLayout` hands it back to
  the caller.

Shared modules: `Optional` (a nullable value), `Geometry` (sizes and rectangles) and
`WideChar` (the toolkit's wide character: a 16-bit UTF-16 code unit, so a character outside
the Basic Multilingual Plane is two units and a lone surrogate is a unit of its own).

Message-box answers, pumped events and signal aggregation are parameters of the model.

## Model

| member | source | states |
|---|---|---|
| UndoDocument.New | examples/Undo/Document.h:48-49 | a new document carries the given name and an empty text |
| UndoDocument.Name | examples/Undo/Document.h:54-56 | the name is the one given at construction; `AddChar`, `AddString` and `Remove` each keep it (`r.doc.name == d.name` in their contracts) |
| UndoDocument.Size | examples/Undo/Document.h:62-64 | the size is the number of characters in the text; the edits' contracts state how each changes it |
| UndoDocument.At | examples/Undo/Document.h:58-60 | a character comes back exactly when the position is below the size, and it is the character stored there |
| UndoDocument.AddChar | examples/Undo/Document.h:66-68 | succeeds iff pos <= size; size grows by one; the new character sits at pos; characters before pos stay; the rest shift right by one; the name is kept |
| UndoDocument.AddString | examples/Undo/Document.h:70-72 | succeeds iff pos <= size; size grows by the string's length; the slice [pos, pos+len) is the string; the prefix stays and the old tail follows the string |
| UndoDocument.Remove | examples/Undo/Document.h:74-76 | succeeds iff pos <= size; erases min(n, size-pos) characters; the prefix before pos stays; what follows is the old text after the erased part |
| UndoDocument.AddCharThenRemove | examples/Undo/Document.h:66-76 | inserting a character at pos and erasing one character at pos restores the document |
| UndoDocument.AddStringThenRemove | examples/Undo/Document.h:70-76 | inserting a string at pos and erasing its length at pos restores the document |
| UndoDocument.AddStringIsAddEach | examples/Undo/Document.h:66-72 | inserting a string equals inserting its characters one at a time at successive positions, including the out-of-range case |
| UndoDocument.RemoveIsRemoveEach | examples/Undo/Document.h:74-76 | erasing n characters equals n single-character erasures at the same position, including the clamping at the end |
| UndoEditor.Init | examples/Undo/Editor.h:51-60 | a new editor has no document, caret 0, a visible caret, and satisfies the invariant |
| UndoEditor.SetDocument | examples/Undo/Editor.h:73-77 | the caret goes to the new document's size, or 0 without one; the invariant holds; the caret is visible |
| UndoEditor.GoBeginOfLine | examples/Undo/Editor.h:79-82 | caret 0, same document, invariant holds, caret visible |
| UndoEditor.GoEndOfLine | examples/Undo/Editor.h:84-87 | caret at the document's size, same document, invariant holds |
| UndoEditor.GoPreviousChar | examples/Undo/Editor.h:89-93 | caret moves back one, or stays at 0; document unchanged; invariant preserved |
| UndoEditor.GoNextChar | examples/Undo/Editor.h:95-99 | caret moves forward one, or stays at the size; document unchanged; invariant preserved |
| UndoEditor.RemovePreviousChar | examples/Undo/Editor.h:101-105 | at caret 0 document and caret stay unchanged; otherwise the character at caret-1 is erased and the caret moves back onto its place |
| UndoEditor.RemoveNextChar | examples/Undo/Editor.h:107-111 | at the end document and caret stay unchanged; otherwise the character under the caret is erased and the caret stays |
| UndoEditor.WriteChar | examples/Undo/Editor.h:113-117 | on a document with 10 or more characters document and caret stay unchanged; otherwise the character is inserted at the caret and the caret advances; the 10-character bound is kept |
| UndoEditor.ToggleCaretVisibility | examples/Undo/Editor.h:186-190 | the blink tick flips the caret's visibility and changes nothing else |
| UndoEditor.OnKeyDown | examples/Undo/Editor.h:162-182 | without a document nothing happens; a non-editing key with a character below space does nothing; the invariant, the document's name and the 10-character bound are kept |
| UndoEditor.OnKeys | examples/Undo/Editor.h:162-182 | any sequence of key presses keeps the invariant, the document's name and the 10-character bound |
| UndoEditor.WriteThenBackspace | examples/Undo/Editor.h:101-117 | typing a character into a non-full document and pressing Backspace restores document and caret |
| UndoEditor.View | examples/Undo/Editor.h:43-45 | the text before the caret followed by the text after it is the document's text, and the first part's length is the caret |
| UndoEditor.KeyDownMatchesCursor | examples/Undo/Editor.h:162-182 | with a document, every key acts on the text around the caret as the independent description CursorKey says (home, end, arrows, backspace, delete, typing with the cap) |
| ProgressBars.Init | examples/ProgressBars/ProgressBars.cpp:60-94 | the dialog starts waiting to work, with empty bars, button text "Start", and satisfies the at-rest invariant |
| ProgressBars.Pause | examples/ProgressBars/ProgressBars.cpp:141-144 | Start pressed while working gives Paused and "Continue", bars unchanged |
| ProgressBars.Restart | examples/ProgressBars/ProgressBars.cpp:147-154 | Restart gives WaitingToWork, both bars at the minimum, marquee stopped, text "Start" |
| ProgressBars.OnClose | examples/ProgressBars/ProgressBars.cpp:162-198 | while working the close is always cancelled and the state becomes Aborting iff the user says Yes; while paused it is cancelled iff the user says No; otherwise never cancelled; nothing else changes |
| ProgressBars.Pump | examples/ProgressBars/ProgressBars.cpp:112-113 | a pumped Start press pauses, a confirmed close aborts, anything else leaves the dialog working; a pause sets the button text to "Continue", and otherwise the text is untouched; bars untouched |
| ProgressBars.Iteration | examples/ProgressBars/ProgressBars.cpp:111-127 | one loop turn: with full bars the state becomes WorkDone ("Restart") whatever the pump set; otherwise both bars advance by one and the pump's state and button text stay; bars stay in range and in lockstep |
| ProgressBars.RunLoop | examples/ProgressBars/ProgressBars.cpp:111-130 | the loop ends in Paused, WorkDone or Aborting; WorkDone only with full bars; Paused only after a Start press, Aborting only after a confirmed close; with no events it always completes the work; a pause leaves the text "Continue" and an abort leaves the text as it was; bars never exceed the maximum and stay in lockstep |
| ProgressBars.OnStart | examples/ProgressBars/ProgressBars.cpp:99-160 | from waiting or paused it runs the loop, stops the marquee and hides the dialog exactly when the loop ended in Aborting; from Working it pauses; from WorkDone it restarts; a pause leaves the button reading "Continue"; not callable in Aborting; keeps the at-rest invariant, which includes "Start" while waiting and "Continue" while paused |
| ProgressBars.OnCloseAtRest | examples/ProgressBars/ProgressBars.cpp:181-197 | closing a dialog at rest never changes it; a paused dialog's close is cancelled iff the user says No |
| ProgressBars.UndisturbedWorkCompletes | examples/ProgressBars/ProgressBars.cpp:111-130 | started with no interfering events, the work completes with both bars full and the button offering a restart |
| ProgressBars.ConfirmedCloseLostWhenFull | examples/ProgressBars/ProgressBars.cpp:113-134 | as written, a close confirmed while the bars are full ends in WorkDone with the dialog still shown and the close cancelled |
| ProgressBars.IterationIntended | examples/ProgressBars/ProgressBars.cpp:111-127 | intended loop turn: a confirmed close always yields Aborting with bars and button text unchanged; every other turn is the written one |
| ProgressBars.RunLoopIntended | examples/ProgressBars/ProgressBars.cpp:111-130 | intended loop: same guarantees as the written loop, and a confirmed close as the first event always ends it in Aborting |
| ProgressBars.OnStartIntended | examples/ProgressBars/ProgressBars.cpp:99-160 | the Start handler built on the intended loop keeps the same pause, restart and at-rest guarantees |
| ProgressBars.ConfirmedCloseHides | examples/ProgressBars/ProgressBars.cpp:133-134 | intended: a close confirmed during the work always aborts it and hides the dialog |
| StatusBar.IsLayoutFree | src/StatusBar.cpp:52-55 | the status bar is always laid out outside the layout manager |
| StatusBar.PreferredSize | src/StatusBar.cpp:57-60 | the preferred size is width 0, height 24 |
| StatusBar.OnLayout | src/StatusBar.cpp:62-73 | the bar gets the area's x and width, the preferred height, and is bottom-aligned; the rest keeps x, y and width; its bottom is the bar's top and the heights sum to the area's |
| StatusBar.LayoutTilesArea | src/StatusBar.cpp:67-70 | for an area at least 24 high, every pixel of the area lies in exactly one of bar and rest, and no outside pixel lies in either |
| StatusBar.NoClamping | src/StatusBar.cpp:69-69 | for an area lower than 24 the rest has negative height and the bar starts above the area |
| LikeScript.FilterNumKeys | examples/LikeScript/LikeScript.cpp:134-141 | digits, NUL and control characters are never consumed; a key becomes consumed only if it is a non-digit at least a space; an already consumed event stays consumed |
| LikeScript.FilterConsumesPrintableNonDigits | examples/LikeScript/LikeScript.cpp:136-138 | a fresh key is consumed iff its character is at least a space and not a digit (the NUL test is redundant) |
| LikeScript.LimitFrameResizing | examples/LikeScript/LikeScript.cpp:97-100 | the result keeps the proposed x and width and the current y and height |
| LikeScript.LimitFrameResizingIdempotent | examples/LikeScript/LikeScript.cpp:97-100 | applying the hook twice equals applying it once |
| LikeScript.HorizontalResizePasses | examples/LikeScript/LikeScript.cpp:97-100 | a proposal passes unchanged iff it keeps the current y and height |
| Commands.NewCommand | include/Vaca/Command.h:53-61 | a base command keeps its id, is enabled and is not checked |
| Commands.NewSignalCommand | include/Vaca/Command.h:79-79 | a signal command built from an id alone keeps the id and has no slot in any signal |
| Commands.NewSignalCommandWithFunctor | include/Vaca/Command.h:90-93 | built with a functor: exactly that one Execute slot, no Enabled or Checked slot |
| Commands.NewSignalCommandWithMember | include/Vaca/Command.h:107-110 | built with a member function and instance: exactly that one Execute slot, no Enabled or Checked slot |
| Commands.Execute | include/Vaca/Command.h:114-114 | the slots that run are exactly the connected Execute slots, each once |
| Commands.GetId | include/Vaca/Command.h:56-56 | a command's id is the one it was constructed with; `ConstructedCommandsUseDefaults` states it for every constructor |
| Commands.IsEnabled | include/Vaca/Command.h:116-118 | true for a base command and for a signal command with no Enabled slot; otherwise whatever the signal's aggregation gives |
| Commands.IsChecked | include/Vaca/Command.h:120-122 | false for a base command and for a signal command with no Checked slot; otherwise whatever the signal's aggregation gives |
| Commands.ConstructedCommandsUseDefaults | include/Vaca/Command.h:56-122 | every constructor yields a command with the given id that is enabled and unchecked under any aggregation |
| Commands.ConstructedCommandsExecute | include/Vaca/Command.h:79-114 | executing a command built with a callable runs exactly that callable; one built without runs nothing |
| LayoutOwnership.NewWidget | doc/pages/tn011.h:19-19 | a new widget is alive, has no layout and has deleted nothing |
| LayoutOwnership.SetLayout | doc/pages/tn011.h:21-21 | returns the previously installed layout, installs the new one, deletes nothing |
| LayoutOwnership.Delete | doc/pages/tn011.h:23-23 | a delete hits exactly the named layout once |
| LayoutOwnership.Destroy | doc/pages/tn011.h:10-11 | destroying the widget deletes the installed layout exactly once and no other |
| LayoutOwnership.ReplacedLayoutIsCallers | doc/pages/tn011.h:10-12 | after a replacement the old layout is returned, and destroying the widget deletes only the newer one |
| LayoutOwnership.AllowedStepIsSafe | doc/pages/tn011.h:7-44 | an action allowed by the ownership rule keeps every layout deleted at most once and the installed one undeleted |
| LayoutOwnership.DisciplineAvoidsDoubleDelete | doc/pages/tn011.h:7-44 | any run of actions that follows the ownership rule deletes no layout twice |
| LayoutOwnership.HeapExample | doc/pages/tn011.h:14-30 | install, replace, delete the returned layout, destroy: each of the two layouts is deleted exactly once |
| LayoutOwnership.StackExampleDetached | doc/pages/tn011.h:36-44 | a stack layout detached with none before the frame's end is deleted exactly once, by its scope |
| LayoutOwnership.StackExampleNotDetached | doc/pages/tn011.h:36-44 | without the detach the stack layout is deleted twice |

## Left out

- Painting (`Editor::onPaint`), fonts, colours and the preferred size of the editor: rendering only.
- The blink `Timer` and `invalidate`: only their effect on the caret-visibility flag is modelled.
- `Widget::onKeyDown` called first by the editor's key handler: the base class is not part of this model.
- The editor's `Document` is shared through a reference-counted pointer. The model holds the document by value, so edits made through another holder of the same document are not modelled.
- UndoEditor.GoEndOfLine, UndoEditor.GoNextChar, UndoEditor.RemoveNextChar and UndoEditor.WriteChar require a document: the source dereferences the null pointer otherwise. `Init`, `SetDocument`, `GoBeginOfLine`, `GoPreviousChar` and `ToggleCaretVisibility` have no precondition.
- UndoEditor.OnKeyDown: requires the class invariant, because it dispatches to `RemovePreviousChar` and `WriteChar`, which require it. Without a document it does nothing.
- UndoEditor.OnKeys: requires the class invariant, for the same reason as `OnKeyDown`; each key keeps it for the next.
- UndoEditor.RemovePreviousChar: requires the class invariant. Outside it the source decrements the caret and then dereferences a null document or throws from the erase; that path is not modelled.
- UndoEditor.WriteChar: requires the class invariant. Outside it the source would increment the caret and then throw from the insert; that path is not modelled.
- Characters are UTF-16 code units (`WideChar.Char`); surrogate pairs are not combined, as the source's wide string does not combine them either.
- The length error of `std::string` insertion (exceeding the string's maximum size) is not modelled.
- ProgressBars: `Sleep`, the marquee animation and button painting are left out. The message box's answer and the pumped event are inputs.
- ProgressBars: exactly one event is delivered per pump. Several events in one pump would let a nested Start handler run a second work loop inside the first; that re-entrancy is not modelled.
- ProgressBars: what an uncancelled close does (the dialog base class hides the window) happens in `Dialog::onClose` and the base class, which this model does not cover; `OnClose` reports only whether the close was cancelled.
- ProgressBars: `ProgressBar::addValue` and `setValue` are taken to store the value as given. The loop never leaves the range, so range clamping is not needed.
- ProgressBars.OnStart: requires that the state is not `Aborting`, because the source asserts that case impossible. The at-rest invariant `AtRest` backs the assertion: an aborted dialog is hidden, so its button cannot be pressed.
- Rectangle arithmetic uses unbounded integers; 32-bit overflow of the toolkit's `int` is not modelled.
- StatusBar.PreferredSize: returns the size set by `onPreferredSize`. The widget's preferred-size caching and the call to `Widget::onLayout` are not part of this model.
- `LimitFrameResizing` takes the frame's current bounds as a parameter in place of the `Frame*` it reads them from.
- `Bix::parse` and the rest of the LikeScript layout setup: the grammar's implementation is not part of this model.
- `CommandsClient` (add, remove, lookup by id): include/Vaca/Command.h:132-143 declares these members without bodies, so no behaviour is asserted.
- Signal connection, disconnection and the aggregation of slot results: the signal implementation is not part of this model. `IsEnabled` and `IsChecked` take the aggregation as a parameter and assert only the no-slot defaults.
- Commands.Execute: the slots are listed in connection order, but only "every connected slot runs once" is asserted, because the firing order belongs to the signal implementation.
- A base command's `execute` is pure virtual; what a subclass does is not modelled.
- Layout ownership covers layouts only; constraints follow the same documented rule and are not modelled separately.

## Findings

| source | as written | input that shows it | evidently intended | confidence | as-written member | corrected member |
|---|---|---|---|---|---|---|
| examples/ProgressBars/ProgressBars.cpp:113-134 | after the pump, the test "first bar full means WorkDone" runs regardless of the state the pump set, so it overwrites an `Aborting` state set by a confirmed close | a paused dialog with both bars at 100; press Continue; the first pump delivers a close that the user confirms with Yes: the loop ends in WorkDone, the dialog is not hidden, and the close was cancelled | a confirmed close always aborts the work and hides the dialog | medium; not executed | ProgressBars.ConfirmedCloseLostWhenFull | ProgressBars.ConfirmedCloseHides |

A paused dialog with full bars is reachable. If the user pauses at the pump where the bar stands
at 99, the loop still advances the bars to 100 before it exits in `Paused`. That extra step is
kept. The corrected loop turn (`ProgressBars.IterationIntended`) changes only the confirmed
close: it ends the turn in `Aborting` before the work step. `ProgressBars.OnStartIntended` is
built on it. The rest of the model keeps the loop
as written, so that its contracts describe the program as it is.
