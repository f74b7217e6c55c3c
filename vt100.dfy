/**
 * The VT100 terminal helpers used by the console: a few control characters
 * and the escape sequences written, one character at a time, through the
 * terminal's output routine. The output routine is modelled as appending
 * to `out`, the stream of characters sent to the terminal so far.
 */
module Vt100 {
  import opened Base

  const BEL: char := 7 as char
  const BS: char := 8 as char
  const LF: char := 10 as char
  const CR: char := 13 as char
  const ESC: char := 27 as char
  const DEL: char := 127 as char
  const NUL: char := 0 as char

  // Final characters of the cursor key sequences `ESC [ x`.
  const ARROW_UP: char := 'A'
  const ARROW_DOWN: char := 'B'
  const ARROW_RIGHT: char := 'C'
  const ARROW_LEFT: char := 'D'
  const ARROW_END: char := 'F'
  const ARROW_HOME: char := 'H'

  /** The sequence that moves the cursor one column right. */
  const CURSOR_RIGHT: string := [ESC, '[', ARROW_RIGHT]

  /** `n` cursor-right sequences. */
  function Forwards(n: nat): string
  {
    if n == 0 then [] else Forwards(n - 1) + CURSOR_RIGHT
  }

  /** The characters of a C string before its terminating NUL. */
  function UpToNul(s: string): (r: string)
    ensures |r| <= |s| && r == s[..|r|]
    ensures NUL !in r
    ensures |r| < |s| ==> s[|r|] == NUL
  {
    if s == [] || s[0] == NUL then [] else [s[0]] + UpToNul(s[1..])
  }

  /** What `erase_right(n)` writes: `n` spaces, then `n` backspaces. */
  function EraseRightSeq(n: nat): string
  {
    Repeat(' ', n) + Repeat(BS, n)
  }

  /** `n` cursor-right sequences are `3 n` characters, each an `ESC [ C`. */
  lemma {:induction false} ForwardsShape(n: nat)
    ensures |Forwards(n)| == 3 * n
    ensures forall i :: 0 <= i < n ==> Forwards(n)[3 * i..3 * i + 3] == CURSOR_RIGHT
  {
    if n > 0 {
      ForwardsShape(n - 1);
      var f := Forwards(n - 1);
      assert Forwards(n) == f + CURSOR_RIGHT;
      forall i | 0 <= i < n
        ensures Forwards(n)[3 * i..3 * i + 3] == CURSOR_RIGHT
      {
        if i < n - 1 {
          assert Forwards(n)[3 * i..3 * i + 3] == f[3 * i..3 * i + 3];
        }
      }
    }
  }

  /** A C string literal reads back as the characters before its terminator. */
  lemma {:induction false} UpToNulTerminated(s: string)
    requires NUL !in s
    ensures UpToNul(s + [NUL]) == s
  {
    if s != [] {
      assert (s + [NUL])[1..] == s[1..] + [NUL];
      UpToNulTerminated(s[1..]);
    }
  }

  /** A terminal driven through a character output routine. */
  class Terminal {
    /** Everything written to the terminal so far. */
    var out: seq<char>

    constructor()
      ensures out == []
    {
      out := [];
    }

    method Putc(c: char)
      modifies this
      ensures out == old(out) + [c]
    {
      out := out + [c];
    }

    /** Writes a C string up to its NUL; a null pointer (`None`) writes nothing. */
    method Puts(str: Option<string>)
      modifies this
      ensures out == old(out) + (if str.None? then [] else UpToNul(str.value))
    {
      if str.Some? {
        var s := str.value;
        var i := 0;
        while i < |s| && s[i] != NUL
          invariant 0 <= i <= |s|
          invariant UpToNul(s) == s[..i] + UpToNul(s[i..])
          invariant out == old(out) + s[..i]
        {
          assert s[i..] == [s[i]] + s[i + 1..];
          Putc(s[i]);
          i := i + 1;
          assert s[..i] == s[..i - 1] + [s[i - 1]];
        }
      }
    }

    /** Same as `Puts`; program memory is read like any other memory here. */
    method PrintP(str: Option<string>)
      modifies this
      ensures out == old(out) + (if str.None? then [] else UpToNul(str.value))
    {
      Puts(str);
    }

    method Init()
      modifies this
      ensures out == old(out) + [ESC, 'c']
    {
      UpToNulTerminated([ESC, 'c']);
      PrintP(Some([ESC, 'c'] + [NUL]));
    }

    method Clear()
      modifies this
      ensures out == old(out) + [ESC, '[', '2', 'J']
    {
      UpToNulTerminated([ESC, '[', '2', 'J']);
      PrintP(Some([ESC, '[', '2', 'J'] + [NUL]));
    }

    method SetCursorMode(visible: bool)
      modifies this
      ensures out == old(out) + [ESC, '[', '?', '2', '5', if visible then 'h' else 'l']
    {
      UpToNulTerminated([ESC, '[', '?', '2', '5', if visible then 'h' else 'l']);
      PrintP(Some([ESC, '[', '?', '2', '5', if visible then 'h' else 'l'] + [NUL]));
    }

    method RingBell()
      modifies this
      ensures out == old(out) + [BEL]
    {
      Putc(BEL);
    }

    method MoveToStartOfNextLine()
      modifies this
      ensures out == old(out) + [CR, LF]
    {
      Putc(CR);
      Putc(LF);
    }

    method MoveBack(distance: nat)
      modifies this
      ensures out == old(out) + Repeat(BS, distance)
    {
      var i := 0;
      while i < distance
        invariant i <= distance
        invariant out == old(out) + Repeat(BS, i)
      {
        Putc(BS);
        i := i + 1;
      }
    }

    method MoveForward(distance: nat)
      modifies this
      ensures out == old(out) + Forwards(distance)
    {
      var i := 0;
      while i < distance
        invariant i <= distance
        invariant out == old(out) + Forwards(i)
      {
        Putc(ESC);
        Putc('[');
        Putc(ARROW_RIGHT);
        i := i + 1;
      }
    }

    method MoveBackWithErase()
      modifies this
      ensures out == old(out) + [BS, ' ', BS]
    {
      Putc(BS);
      Putc(' ');
      Putc(BS);
    }

    method MoveToStart()
      modifies this
      ensures out == old(out) + [CR]
    {
      Putc(CR);
    }

    method EraseRight(count: nat)
      modifies this
      ensures out == old(out) + EraseRightSeq(count)
    {
      var i := 0;
      while i < count
        invariant i <= count
        invariant out == old(out) + Repeat(' ', i)
      {
        Putc(' ');
        i := i + 1;
      }
      i := 0;
      while i < count
        invariant i <= count
        invariant out == old(out) + Repeat(' ', count) + Repeat(BS, i)
      {
        Putc(BS);
        i := i + 1;
      }
    }
  }
}
