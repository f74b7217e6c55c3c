/**
 * The console's line editor: it receives the characters typed on a VT100
 * terminal one at a time, keeps the line being edited (at most 40
 * characters) with an insertion cursor, echoes what is needed to keep the
 * terminal in step, recalls the last 10 entered lines with the up and down
 * keys, and hands back a whole line when ENTER is pressed.
 *
 * `React` is the specification of one input character: the new editor
 * state, the characters echoed and the line handed back, if any. The class
 * `ConsoleServer` holds the same state in fields and is proved to follow it.
 */
module Console {
  import opened Base
  import opened Vt100

  const BUFFER_SIZE: nat := 40
  const HISTORY_SIZE: nat := 10
  const PROMPT: string := "> "

  datatype InputState = Normal | Escape | Command

  datatype HistoryAction = Save | Prev | Next

  /** The editor's state: the line, the cursor in it, the history and where we are in it. */
  datatype Editor = Editor(
    buffer: string,
    cursor: nat,
    history: seq<string>,
    histPos: nat,
    state: InputState,
    skip: char)

  predicate EditorValid(e: Editor)
  {
    && |e.buffer| <= BUFFER_SIZE
    && e.cursor <= |e.buffer|
    && |e.history| <= HISTORY_SIZE
    && e.histPos <= |e.history|
    && (forall k :: 0 <= k < |e.history| ==> |e.history[k]| <= BUFFER_SIZE)
  }

  /** The state of a freshly built console server. */
  const InitialEditor: Editor := Editor([], 0, [], 0, Normal, NUL)

  /** The effect of one input character. */
  datatype Reaction = Reaction(next: Editor, echo: string, line: Option<string>)

  predicate Printable(c: char)
  {
    ' ' <= c < DEL
  }

  /** What `repaint(erase_up_to)` writes for the line `buffer`. */
  function RepaintSeq(buffer: string, eraseUpTo: nat): string
  {
    [CR] + PROMPT + buffer + (if eraseUpTo > |buffer| then EraseRightSeq(eraseUpTo - |buffer|) else [])
  }

  /** The history after recording `line`: the oldest entry goes once there are 10. */
  function Pushed(history: seq<string>, line: string): seq<string>
  {
    if |history| == HISTORY_SIZE then history[1..] + [line] else history + [line]
  }

  function InsertAt(s: string, i: nat, c: char): string
    requires i <= |s|
  {
    s[..i] + [c] + s[i..]
  }

  function RemoveAt(s: string, i: nat): string
    requires i < |s|
  {
    s[..i] + s[i + 1..]
  }

  /** Up and down keys: step through the history and show the entry reached. */
  function Recall(e: Editor, action: HistoryAction): Reaction
    requires EditorValid(e) && action != Save
  {
    if action == Next then
      if e.histPos == |e.history| then Reaction(e, [BEL], None) else Show(e, e.histPos + 1)
    else
      if e.histPos == 0 then Reaction(e, [BEL], None) else Show(e, e.histPos - 1)
  }

  /** Shows history entry `pos`; stepping onto the end of the history shows an empty line. */
  function Show(e: Editor, pos: nat): Reaction
    requires EditorValid(e) && pos <= |e.history|
  {
    var line := if pos < |e.history| then e.history[pos] else [];
    Reaction(e.(buffer := line, cursor := |line|, histPos := pos), RepaintSeq(line, |e.buffer|), None)
  }

  /** The final character of an `ESC [` sequence. */
  function CursorKey(e: Editor, c: char): Reaction
    requires EditorValid(e)
  {
    if c == ARROW_UP then Recall(e, Prev)
    else if c == ARROW_DOWN then Recall(e, Next)
    else if c == ARROW_RIGHT then
      if e.cursor < |e.buffer| then Reaction(e.(cursor := e.cursor + 1), Forwards(1), None)
      else Reaction(e, [BEL], None)
    else if c == ARROW_LEFT then
      if e.cursor != 0 then Reaction(e.(cursor := e.cursor - 1), [BS], None)
      else Reaction(e, [BEL], None)
    else if c == ARROW_HOME then
      if e.cursor != 0 then Reaction(e.(cursor := 0), Repeat(BS, e.cursor), None)
      else Reaction(e, [BEL], None)
    else if c == ARROW_END then
      if e.cursor != |e.buffer| then Reaction(e.(cursor := |e.buffer|), Forwards(|e.buffer| - e.cursor), None)
      else Reaction(e, [BEL], None)
    else Reaction(e, [], None)
  }

  /** A character outside an escape sequence. */
  function Regular(e: Editor, c: char): Reaction
    requires EditorValid(e)
  {
    if Printable(c) then
      if |e.buffer| < BUFFER_SIZE then
        if e.cursor == |e.buffer| then
          Reaction(e.(buffer := e.buffer + [c], cursor := e.cursor + 1), [c], None)
        else
          var b := InsertAt(e.buffer, e.cursor, c);
          Reaction(e.(buffer := b, cursor := e.cursor + 1),
                   RepaintSeq(b, 0) + Repeat(BS, |b| - (e.cursor + 1)), None)
      else Reaction(e, [BEL], None)
    else if c == LF || c == CR then
      var e1 := e.(skip := if c == LF then NUL else LF);
      if e.buffer != [] then
        var h := Pushed(e.history, e.buffer);
        Reaction(e1.(history := h, histPos := |h|, buffer := [], cursor := 0), [CR, LF], Some(e.buffer))
      else Reaction(e1, [CR, LF], Some([]))
    else if c == DEL || c == BS then
      if e.cursor == 0 then Reaction(e, [BEL], None)
      else if e.cursor == |e.buffer| then
        var b := e.buffer[..|e.buffer| - 1];
        Reaction(e.(buffer := b, cursor := |b|), [BS, ' ', BS], None)
      else
        var b := RemoveAt(e.buffer, e.cursor - 1);
        Reaction(e.(buffer := b, cursor := e.cursor - 1),
                 RepaintSeq(b, 0) + [' '] + Repeat(BS, |b| - (e.cursor - 1) + 1), None)
    else if c == ESC then Reaction(e.(state := Escape), [], None)
    else Reaction(e, [], None)
  }

  /** `process_input(c)`. */
  function React(e: Editor, c: char): Reaction
    requires EditorValid(e)
  {
    if c == e.skip then Reaction(e, [], None)
    else
      var e1 := e.(skip := NUL);
      match e1.state
      case Command =>
        var r := CursorKey(e1, c);
        Reaction(r.next.(state := Normal), r.echo, None)
      case Escape =>
        if c == '[' then Reaction(e1.(state := Command), [], None)
        else Regular(e1.(state := Normal), c)
      case Normal => Regular(e1, c)
  }

  /** `reset()`: leave any escape sequence, empty the line and forget a pending skip. */
  function ResetEditor(e: Editor): (r: Editor)
    requires EditorValid(e)
    ensures EditorValid(r)
    ensures r.buffer == [] && r.cursor == 0 && r.state == Normal && r.skip == NUL
    ensures r.history == e.history && r.histPos == e.histPos
  {
    e.(state := Normal, buffer := [], cursor := 0, skip := NUL)
  }

  /** `reset()` as written: the line is emptied but the cursor is left where it was. */
  function ResetEditorAsWritten(e: Editor): Editor
  {
    e.(state := Normal, buffer := [], skip := NUL)
  }

  /** As written, `reset()` can leave the cursor past the end of the (now empty) line. */
  lemma ResetAsWrittenLosesCursor()
    ensures var e := Editor("ab", 2, [], 0, Normal, NUL);
      EditorValid(e) && !EditorValid(ResetEditorAsWritten(e))
  {
  }

  // ---------------------------------------------------------------------
  // Properties of the specification
  // ---------------------------------------------------------------------

  /** Every input keeps the line, the cursor and the history within bounds. */
  lemma ReactValid(e: Editor, c: char)
    requires EditorValid(e)
    ensures EditorValid(React(e, c).next)
  {
    var e1 := e.(skip := NUL);
    if c != e.skip {
      match e1.state
      case Command => CursorKeyValid(e1, c);
      case Escape => if c != '[' { RegularValid(e1.(state := Normal), c); }
      case Normal => RegularValid(e1, c);
    }
  }

  lemma CursorKeyValid(e: Editor, c: char)
    requires EditorValid(e)
    ensures EditorValid(CursorKey(e, c).next)
  {
  }

  lemma RegularValid(e: Editor, c: char)
    requires EditorValid(e)
    ensures EditorValid(Regular(e, c).next)
  {
    if (c == LF || c == CR) && e.buffer != [] {
      var h := Pushed(e.history, e.buffer);
      assert forall k :: 0 <= k < |h| ==> |h[k]| <= BUFFER_SIZE;
    }
  }

  /** A printable character with room left is inserted at the cursor, which moves past it. */
  lemma ReactInsert(e: Editor, c: char)
    requires EditorValid(e) && e.state == Normal && c != e.skip
    requires Printable(c) && |e.buffer| < BUFFER_SIZE
    ensures React(e, c).next.buffer == e.buffer[..e.cursor] + [c] + e.buffer[e.cursor..]
    ensures React(e, c).next.cursor == e.cursor + 1
    ensures React(e, c).line == None
  {
    if e.cursor == |e.buffer| {
      assert e.buffer[..e.cursor] == e.buffer && e.buffer[e.cursor..] == [];
    }
  }

  /** A printable character on a full line rings the bell and changes nothing. */
  lemma ReactFull(e: Editor, c: char)
    requires EditorValid(e) && e.state == Normal && c != e.skip
    requires Printable(c) && |e.buffer| == BUFFER_SIZE
    ensures React(e, c) == Reaction(e.(skip := NUL), [BEL], None)
  {
  }

  /** Backspace or delete removes the character before the cursor; at the start it rings the bell. */
  lemma ReactErase(e: Editor, c: char)
    requires EditorValid(e) && e.state == Normal && c != e.skip
    requires c == BS || c == DEL
    ensures e.cursor == 0 ==> React(e, c) == Reaction(e.(skip := NUL), [BEL], None)
    ensures e.cursor > 0 ==>
      && React(e, c).next.buffer == e.buffer[..e.cursor - 1] + e.buffer[e.cursor..]
      && React(e, c).next.cursor == e.cursor - 1
  {
    if 0 < e.cursor == |e.buffer| {
      assert e.buffer[e.cursor..] == [];
    }
  }

  /**
   * ENTER hands back the line being edited (possibly empty). A non-empty
   * line becomes the newest history entry, and editing restarts on an
   * empty line.
   */
  lemma ReactEnter(e: Editor, c: char)
    requires EditorValid(e) && e.state == Normal && c != e.skip
    requires c == CR || c == LF
    ensures React(e, c).line == Some(e.buffer)
    ensures React(e, c).echo == [CR, LF]
    ensures e.buffer != [] ==>
      && React(e, c).next.buffer == [] && React(e, c).next.cursor == 0
      && React(e, c).next.history[|React(e, c).next.history| - 1] == e.buffer
      && React(e, c).next.histPos == |React(e, c).next.history|
  {
  }

  /** The history keeps the newest 10 lines, oldest first. */
  lemma PushedKeepsNewest(history: seq<string>, line: string)
    requires |history| <= HISTORY_SIZE
    ensures |Pushed(history, line)| == Min(|history| + 1, HISTORY_SIZE)
    ensures Pushed(history, line) == (history + [line])[|history| + 1 - |Pushed(history, line)|..]
  {
  }

  /**
   * A terminal that sends CR LF for ENTER produces one line, not two: the
   * LF that follows the CR is swallowed, and so is every further LF until
   * some other character arrives.
   */
  lemma CrLfIsOneLine(e: Editor)
    requires EditorValid(e) && e.state == Normal && e.skip != CR
    ensures var r := React(e, CR);
      && r.line == Some(e.buffer)
      && React(r.next, LF) == Reaction(r.next, [], None)
      && React(React(r.next, LF).next, LF) == Reaction(r.next, [], None)
  {
  }

  /** After a line ended with LF, a CR is a fresh ENTER on an empty line. */
  lemma LfThenCrIsTwoLines(e: Editor)
    requires EditorValid(e) && e.state == Normal && e.skip != LF
    ensures var r := React(e, LF);
      && r.line == Some(e.buffer)
      && React(r.next, CR).line == Some([])
  {
  }

  /** A complete `ESC [ C` sequence moves the cursor one place right, if it can. */
  lemma EscapeSequenceRight(e: Editor)
    requires EditorValid(e) && e.state == Normal && e.skip == NUL
    ensures var r1 := React(e, ESC);
      var r2 := React(r1.next, '[');
      var r3 := React(r2.next, ARROW_RIGHT);
      && r3.next.state == Normal
      && r3.next.buffer == e.buffer
      && r3.next.cursor == (if e.cursor < |e.buffer| then e.cursor + 1 else e.cursor)
      && r1.echo + r2.echo + r3.echo == (if e.cursor < |e.buffer| then CURSOR_RIGHT else [BEL])
  {
  }

  // ---------------------------------------------------------------------
  // The console server
  // ---------------------------------------------------------------------

  class ConsoleServer {
    const term: Terminal
    var buffer: string
    var cursor: nat
    var history: seq<string>
    var histPos: nat
    var state: InputState
    var skip: char

    function Snapshot(): Editor
      reads this
    {
      Editor(buffer, cursor, history, histPos, state, skip)
    }

    predicate Valid()
      reads this
    {
      EditorValid(Snapshot())
    }

    constructor(t: Terminal)
      ensures term == t && Snapshot() == InitialEditor && Valid()
    {
      term := t;
      buffer := [];
      cursor := 0;
      history := [];
      histPos := 0;
      state := Normal;
      skip := NUL;
    }

    /** `get_line()`: the newest history entry. */
    method GetLine() returns (line: string)
      requires Valid() && history != []
      ensures line == history[|history| - 1]
    {
      line := history[|history| - 1];
    }

    method Reset()
      requires Valid()
      modifies this
      ensures Valid() && Snapshot() == ResetEditor(old(Snapshot()))
    {
      state := Normal;
      buffer := [];
      cursor := 0;
      skip := NUL;
    }

    method ProcessInput(c: char) returns (line: Option<string>)
      requires Valid()
      modifies this, term
      ensures Valid()
      ensures var r := React(old(Snapshot()), c);
        Snapshot() == r.next && term.out == old(term.out) + r.echo && line == r.line
    {
      line := None;
      if c == skip {
        return;
      }
      skip := NUL;
      match state {
        case Command =>
          CursorKeyInput(c);
          state := Normal;
          return;
        case Escape =>
          if c == '[' {
            state := Command;
            return;
          }
          state := Normal;
        case Normal =>
      }
      line := RegularInput(c);
    }

    /** The character ending an `ESC [` sequence. */
    method CursorKeyInput(c: char)
      requires Valid()
      modifies this, term
      ensures Valid()
      ensures var r := CursorKey(old(Snapshot()), c);
        Snapshot() == r.next && term.out == old(term.out) + r.echo
    {
      if c == ARROW_UP {
        DoHistory(Prev);
      } else if c == ARROW_DOWN {
        DoHistory(Next);
      } else if c == ARROW_RIGHT {
        if cursor < |buffer| {
          cursor := cursor + 1;
          term.MoveForward(1);
        } else {
          term.Putc(BEL);
        }
      } else if c == ARROW_LEFT {
        if cursor != 0 {
          cursor := cursor - 1;
          term.MoveBack(1);
        } else {
          term.RingBell();
        }
      } else if c == ARROW_HOME {
        if cursor != 0 {
          term.MoveBack(cursor);
          cursor := 0;
        } else {
          term.RingBell();
        }
      } else if c == ARROW_END {
        if cursor != |buffer| {
          term.MoveForward(|buffer| - cursor);
          cursor := |buffer|;
        } else {
          term.RingBell();
        }
      }
    }

    method RegularInput(c: char) returns (line: Option<string>)
      requires Valid()
      modifies this, term
      ensures Valid()
      ensures var r := Regular(old(Snapshot()), c);
        Snapshot() == r.next && term.out == old(term.out) + r.echo && line == r.line
    {
      line := None;
      if Printable(c) {
        InsertInput(c);
      } else if c == LF || c == CR {
        line := EnterInput(c);
      } else if c == DEL || c == BS {
        EraseInput(c);
      } else if c == ESC {
        state := Escape;
      }
    }

    /** A printable character: append, or insert mid-line and repaint. */
    method InsertInput(c: char)
      requires Valid() && Printable(c)
      modifies this, term
      ensures Valid()
      ensures var r := Regular(old(Snapshot()), c);
        Snapshot() == r.next && term.out == old(term.out) + r.echo
    {
      if |buffer| < BUFFER_SIZE {
        if cursor == |buffer| {
          term.Putc(c);
          buffer := buffer + [c];
          cursor := cursor + 1;
        } else {
          buffer := InsertAt(buffer, cursor, c);
          cursor := cursor + 1;
          Repaint(0);
          term.MoveBack(|buffer| - cursor);
        }
      } else {
        term.RingBell();
      }
    }

    /** ENTER, as CR or LF. */
    method EnterInput(c: char) returns (line: Option<string>)
      requires Valid() && (c == LF || c == CR)
      modifies this, term
      ensures Valid()
      ensures var r := Regular(old(Snapshot()), c);
        Snapshot() == r.next && term.out == old(term.out) + r.echo && line == r.line
    {
      RegularValid(Snapshot(), c);
      term.MoveToStartOfNextLine();
      skip := if c == LF then NUL else LF;
      if buffer != [] {
        DoHistory(Save);
        var l := GetLine();
        line := Some(l);
      } else {
        line := Some([]);
      }
    }

    /** Backspace or delete. */
    method EraseInput(c: char)
      requires Valid() && (c == DEL || c == BS)
      modifies this, term
      ensures Valid()
      ensures var r := Regular(old(Snapshot()), c);
        Snapshot() == r.next && term.out == old(term.out) + r.echo
    {
      ghost var e := Snapshot();
      assert !Printable(c) && c != LF && c != CR;
      ghost var r := Regular(e, c);
      if cursor == 0 {
        assert r == Reaction(e, [BEL], None);
        term.RingBell();
      } else if cursor == |buffer| {
        term.MoveBackWithErase();
        buffer := buffer[..|buffer| - 1];
        cursor := |buffer|;
      } else {
        cursor := cursor - 1;
        buffer := RemoveAt(buffer, cursor);
        Repaint(0);
        term.Putc(' ');
        term.MoveBack(|buffer| - cursor + 1);
      }
    }

    method Repaint(eraseUpTo: nat)
      modifies term
      ensures term.out == old(term.out) + RepaintSeq(buffer, eraseUpTo)
    {
      term.MoveToStart();
      term.PrintP(Some(PROMPT + [NUL]));
      UpToNulTerminated(PROMPT);
      var i := 0;
      while i < |buffer|
        invariant i <= |buffer|
        invariant term.out == old(term.out) + [CR] + PROMPT + buffer[..i]
      {
        term.Putc(buffer[i]);
        i := i + 1;
        assert buffer[..i] == buffer[..i - 1] + [buffer[i - 1]];
      }
      assert buffer[..i] == buffer;
      if eraseUpTo > |buffer| {
        term.EraseRight(eraseUpTo - |buffer|);
      }
    }

    method DoHistory(action: HistoryAction)
      requires Valid()
      requires action == Save ==> buffer != []
      modifies this, term
      ensures Valid()
      ensures action == Save ==>
        && Snapshot() == old(Snapshot()).(history := Pushed(old(history), old(buffer)),
                                          histPos := |Pushed(old(history), old(buffer))|,
                                          buffer := [], cursor := 0)
        && term.out == old(term.out)
        && history[|history| - 1] == old(buffer)
      ensures action != Save ==>
        var r := Recall(old(Snapshot()), action);
        Snapshot() == r.next && term.out == old(term.out) + r.echo
    {
      if action == Save {
        history := Pushed(history, buffer);
        histPos := |history|;
        buffer := [];
        cursor := 0;
      } else {
        if action == Next {
          if histPos != |history| {
            histPos := histPos + 1;
          } else {
            term.RingBell();
            return;
          }
        } else {
          if histPos != 0 {
            histPos := histPos - 1;
          } else {
            term.RingBell();
            return;
          }
        }
        var erase := |buffer|;
        buffer := if histPos < |history| then history[histPos] else [];
        cursor := |buffer|;
        Repaint(erase);
      }
    }
  }
}
