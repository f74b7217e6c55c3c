/**
 * Properties of the command language, stated on the parser's
 * specification (`ParseSpec` and its parts): the unit table, the
 * insertion rules, the shape of every program a parse builds, and the
 * meaning of short lines.
 */
module ParserProperties {
  import opened Base
  import opened ProgramModel
  import opened CommandParser

  // ---------------------------------------------------------------------
  // Tokens
  // ---------------------------------------------------------------------

  /** A word with no delimiter in it. */
  predicate Plain(w: string)
  {
    forall k :: 0 <= k < |w| ==> w[k] != ' ' && w[k] != ','
  }

  lemma SingleWord(w: string)
    requires w != [] && Plain(w)
    ensures LineTokens(w) == [Span(0, |w|)]
  {
    SpansOfPlainWord(w, DELIMITERS, []);
  }

  /** Two words separated by one space are two tokens, at positions `0` and `|a| + 1`. */
  lemma TwoWords(a: string, b: string)
    requires a != [] && b != [] && Plain(a) && Plain(b)
    ensures LineTokens(a + " " + b) == [Span(0, |a|), Span(|a| + 1, |a| + 1 + |b|)]
    ensures (a + " " + b)[0..|a|] == a && (a + " " + b)[|a| + 1..|a| + 1 + |b|] == b
  {
    var s := a + " " + b;
    assert forall k :: 0 <= k < |a| ==> s[k] == a[k];
    assert s[|a|] == ' ';
    assert forall k :: |a| + 1 <= k < |s| ==> s[k] == b[k - |a| - 1];
    assert SkipDelims(s, DELIMITERS, 0) == 0;
    RunEndAt(s, DELIMITERS, [], 0, |a|);
    assert SkipDelims(s, DELIMITERS, |a| + 1) == |a| + 1;
    assert SkipDelims(s, DELIMITERS, |a|) == |a| + 1;
    RunEndAt(s, DELIMITERS, [], |a| + 1, |s|);
    assert Spans(s, DELIMITERS, [], |s|) == [];
    assert Spans(s, DELIMITERS, [], |a|) == [Span(|a| + 1, |s|)];
    assert s[0..|a|] == a;
    assert s[|a| + 1..|a| + 1 + |b|] == b;
  }

  /** The parse of a line of two words runs the step of each, unless the first one stops it. */
  lemma RunTwo(s: Scan, cap: nat, a: string, b: string)
    requires a != [] && b != [] && Plain(a) && Plain(b)
    requires ExtraArgsSpec(s, cap, a, 0).state.err == []
    ensures var s1 := StepSpec(ExtraArgsSpec(s, cap, a, 0), cap, a, 0);
      var s2 := ExtraArgsSpec(s1, cap, b, |a| + 1);
      RunSpec(s, cap, a + " " + b, LineTokens(a + " " + b), 0)
        == if s2.state.err != [] then s2 else StepSpec(s2, cap, b, |a| + 1)
  {
    TwoWords(a, b);
    var buffer := a + " " + b;
    var spans := LineTokens(buffer);
    assert |spans| == 2 && spans[0].start == 0 && spans[1].start == |a| + 1;
    assert buffer[spans[0].start..spans[0].end] == a && buffer[spans[1].start..spans[1].end] == b;
    var s1 := StepSpec(ExtraArgsSpec(s, cap, a, 0), cap, a, 0);
    assert RunSpec(s, cap, buffer, spans, 0) == RunSpec(s1, cap, buffer, spans, 1);
    var s2 := ExtraArgsSpec(s1, cap, b, |a| + 1);
    if s2.state.err == [] {
      var s3 := StepSpec(s2, cap, b, |a| + 1);
      assert RunSpec(s3, cap, buffer, spans, 2) == s3;
      assert RunSpec(s1, cap, buffer, spans, 1) == RunSpec(s3, cap, buffer, spans, 2);
    }
  }

  lemma PrefixIsPlain(w: string, command: string)
    requires Plain(command) && StartsWith(command, w)
    ensures Plain(w)
  {
    forall k | 0 <= k < |w|
      ensures w[k] != ' ' && w[k] != ','
    {
      assert w[k] == command[k];
    }
  }

  /** `w` names the command `kind`. */
  predicate CommandWord(w: string, kind: CommandKind)
  {
    w != [] && ((kind == Open && StartsWith("open", w)) || (kind == Close && StartsWith("close", w)))
  }

  lemma CommandWordIsPlain(w: string, kind: CommandKind)
    requires CommandWord(w, kind)
    ensures Plain(w) && !IsDigit(w[0]) && w != "*"
    ensures (kind == Open ==> w[0] == 'o') && (kind == Close ==> w[0] == 'c')
  {
    if kind == Open {
      assert Plain("open");
      PrefixIsPlain(w, "open");
      assert w[0] == "open"[0];
    } else {
      assert Plain("close");
      PrefixIsPlain(w, "close");
      assert w[0] == "close"[0];
    }
  }

  /** The units and their factors to milliseconds. */
  predicate UnitFactor(unit: string, factor: nat)
  {
    (unit, factor) in [("H", 3600000), ("M", 60000), ("s", 1000), ("m", 1), ("", 1000)]
  }

  // ---------------------------------------------------------------------
  // Delays and program numbers
  // ---------------------------------------------------------------------

  lemma {:induction false} DigitCountOfNumber(digits: string, rest: string)
    requires AllDigits(digits)
    requires rest == [] || !IsDigit(rest[0])
    ensures DigitCount(digits + rest) == |digits|
    ensures (digits + rest)[..|digits|] == digits && (digits + rest)[|digits|..] == rest
  {
    if digits != [] {
      assert (digits + rest)[1..] == digits[1..] + rest;
      DigitCountOfNumber(digits[1..], rest);
    }
  }

  /**
   * A number followed by a known unit is a delay of the number times the
   * unit's factor, in 32-bit arithmetic; a lone number below 10 is also
   * recorded as the program number, and nothing else changes.
   */
  lemma DelayUnits(st: State, cap: nat, digits: string, unit: string, factor: nat, pos: nat)
    requires digits != [] && AllDigits(digits) && UnitFactor(unit, factor)
    ensures GetDelaySpec(st, cap, digits + unit, pos).ok
    ensures GetDelaySpec(st, cap, digits + unit, pos).value == (StrToUL(digits) * factor) % TWO_POW_32
    ensures GetDelaySpec(st, cap, digits + unit, pos).state
         == if unit == [] && StrToUL(digits) < 10 then st.(programNumber := StrToUL(digits) as u8) else st
  {
    DigitCountOfNumber(digits, unit);
    assert (digits + unit)[0] == digits[0];
  }

  /** A number followed by anything else is an "Invalid unit" error pointing at the unit. */
  lemma InvalidUnit(st: State, cap: nat, digits: string, unit: string, pos: nat)
    requires digits != [] && AllDigits(digits) && unit != [] && !IsDigit(unit[0])
    requires forall f :: !UnitFactor(unit, f)
    ensures !GetDelaySpec(st, cap, digits + unit, pos).ok
    ensures GetDelaySpec(st, cap, digits + unit, pos).state
         == st.(err := Clip("Invalid unit: '" + unit + "'", cap), distance := ToU8(pos + |digits|))
  {
    DigitCountOfNumber(digits, unit);
    assert (digits + unit)[0] == digits[0];
    forall k | 0 <= k < |UNITS|
      ensures UNITS[k].0 != unit
    {
      assert !UnitFactor(unit, UNITS[k].1);
    }
  }

  /** Where a program number is due, exactly a single digit (including 0) is accepted. */
  lemma ProgramNumberDue(s: Scan, cap: nat, token: string, pos: nat)
    requires s.expects == AnyProgram || s.expects == ProgramOneToNine
    ensures var r := StepSpec(s, cap, token, pos);
      (r.expects == NoMore) <==> (|token| == 1 && IsDigit(token[0]))
    ensures |token| == 1 && IsDigit(token[0]) ==>
      StepSpec(s, cap, token, pos).state == s.state.(programNumber := (token[0] as int - '0' as int) as u8)
    ensures !(|token| == 1 && IsDigit(token[0])) ==>
      StepSpec(s, cap, token, pos).state.err
        == Clip("Expecting a number " + [if s.expects == AnyProgram then '0' else '1'] + " to 9. Got '" + token + "'", cap)
  {
  }

  // ---------------------------------------------------------------------
  // The programs a parse builds
  // ---------------------------------------------------------------------

  /**
   * What every parse leaves in the program: at most `MAX_ITEMS` items, a
   * delay only as the first item, a loop only as the last one and never
   * first, and every item but the last with a non-zero delay.
   */
  predicate WellFormed(items: seq<Command>)
  {
    && |items| <= MAX_ITEMS
    && (items != [] ==> items[0].kind != Loop)
    && (forall k :: 0 < k < |items| ==> items[k].kind != Delay)
    && (forall k :: 0 <= k < |items| - 1 ==> items[k].kind != Loop && items[k].delayMs != 0)
  }

  /**
   * `safe_insert` either reports one of its three errors, in this order,
   * and leaves the program alone, or appends the command with no delay,
   * first giving a previous item without a delay one second when the new
   * command is not a delay.
   */
  lemma SafeInsertRules(st: State, cap: nat, c: CommandKind, pos: nat)
    requires |st.items| <= MAX_ITEMS
    ensures var r := SafeInsertSpec(st, cap, c, pos);
      var n := |st.items|;
      if n == MAX_ITEMS then r == st.(err := Clip("Too many items", cap), distance := ToU8(pos))
      else if n > 0 && st.items[n - 1].kind == Loop then r == st.(err := Clip("No commands allowed past *", cap), distance := ToU8(pos))
      else if n == 0 && c == Loop then r == st.(err := Clip("Loop not allowed as first action", cap), distance := ToU8(pos))
      else
        && r.err == st.err && r.distance == st.distance && r.programNumber == st.programNumber
        && |r.items| == n + 1 && r.items[n] == Command(c, 0)
        && (n > 0 ==> r.items[..n - 1] == st.items[..n - 1])
        && (n > 0 ==> r.items[n - 1].kind == st.items[n - 1].kind)
        && (n > 0 ==>
              r.items[n - 1].delayMs == if c != Delay && st.items[n - 1].delayMs == 0 then 1000 else st.items[n - 1].delayMs)
  {
  }

  lemma SafeInsertWellFormed(st: State, cap: nat, c: CommandKind, pos: nat)
    requires WellFormed(st.items) && (c == Delay ==> st.items == [])
    ensures WellFormed(SafeInsertSpec(st, cap, c, pos).items)
  {
    var r := SafeInsertSpec(st, cap, c, pos);
    var n := |st.items|;
    if r.items != st.items {
      assert |r.items| == n + 1;
      forall k | 0 <= k < n
        ensures r.items[k].kind != Loop && r.items[k].delayMs != 0
      {
        if k < n - 1 {
          assert r.items[k] == st.items[k];
        }
      }
      forall k | 0 < k < n + 1
        ensures r.items[k].kind != Delay
      {
        if k < n {
          assert r.items[k].kind == st.items[k].kind;
        }
      }
    }
  }

  lemma StepWellFormed(s: Scan, cap: nat, token: string, pos: nat)
    requires WellFormed(s.state.items)
    ensures WellFormed(StepSpec(s, cap, token, pos).state.items)
  {
    if !(s.expects == AnyProgram || s.expects == ProgramOneToNine) {
      var d := GetDelaySpec(s.state, cap, token, pos);
      assert d.state.items == s.state.items;
      if d.ok {
        if d.state.items == [] {
          SafeInsertWellFormed(d.state, cap, Delay, pos);
        }
      } else if d.state.err == [] {
        var s1 := s.(state := d.state);
        SafeInsertWellFormed(s1.state, cap, Open, pos);
        SafeInsertWellFormed(s1.state, cap, Close, pos);
        SafeInsertWellFormed(s1.state, cap, Loop, pos);
      }
    }
  }

  lemma {:induction false} RunWellFormed(s: Scan, cap: nat, buffer: string, spans: seq<Span>, i: nat)
    requires InBounds(buffer, spans) && i <= |spans|
    requires WellFormed(s.state.items)
    ensures WellFormed(RunSpec(s, cap, buffer, spans, i).state.items)
    decreases |spans| - i
  {
    if i < |spans| {
      var token := buffer[spans[i].start..spans[i].end];
      var s1 := ExtraArgsSpec(s, cap, token, spans[i].start);
      if s1.state.err == [] {
        StepWellFormed(s1, cap, token, spans[i].start);
        RunWellFormed(StepSpec(s1, cap, token, spans[i].start), cap, buffer, spans, i + 1);
      }
    }
  }

  /** Whatever the line, the program a parse leaves is well formed. */
  lemma ParseWellFormed(cap: nat, distance: u8, buffer: string)
    ensures WellFormed(ParseSpec(cap, distance, buffer).state.items)
  {
    var init := Scan(State([], [], distance, NO_PROGRAM), More, ProgramParsed);
    RunWellFormed(init, cap, buffer, LineTokens(buffer), 0);
  }

  // ---------------------------------------------------------------------
  // A parser without room for an error text
  // ---------------------------------------------------------------------

  /** Without room for a text, no step records an error, and no step sets the result to `Error`. */
  lemma StepSilent(s: Scan, token: string, pos: nat)
    requires s.state.err == []
    ensures ExtraArgsSpec(s, 0, token, pos).state.err == []
    ensures StepSpec(ExtraArgsSpec(s, 0, token, pos), 0, token, pos).state.err == []
    ensures s.result != Error ==> StepSpec(ExtraArgsSpec(s, 0, token, pos), 0, token, pos).result != Error
  {
    var s1 := ExtraArgsSpec(s, 0, token, pos);
    if !(s1.expects == AnyProgram || s1.expects == ProgramOneToNine) {
      var d := GetDelaySpec(s1.state, 0, token, pos);
      assert d.state.err == [];
      if d.ok && d.state.items == [] {
        assert SafeInsertSpec(d.state, 0, Delay, pos).err == [];
      }
    }
  }

  lemma {:induction false} RunSilent(s: Scan, buffer: string, spans: seq<Span>, i: nat)
    requires InBounds(buffer, spans) && i <= |spans|
    requires s.state.err == [] && s.result != Error
    ensures RunSpec(s, 0, buffer, spans, i).state.err == []
    ensures RunSpec(s, 0, buffer, spans, i).result != Error
    decreases |spans| - i
  {
    if i < |spans| {
      var token := buffer[spans[i].start..spans[i].end];
      StepSilent(s, token, spans[i].start);
      var s2 := StepSpec(ExtraArgsSpec(s, 0, token, spans[i].start), 0, token, spans[i].start);
      RunSilent(s2, buffer, spans, i + 1);
    }
  }

  /**
   * With an error string of capacity 0 (the one the program manager
   * gives its parser) no error is ever recorded, so no token stops the
   * parse and the result is never `Error`.
   */
  lemma ParseSilent(distance: u8, buffer: string)
    ensures ParseSpec(0, distance, buffer).result != Error
    ensures ParseSpec(0, distance, buffer).state.err == []
  {
    var init := Scan(State([], [], distance, NO_PROGRAM), More, ProgramParsed);
    RunSilent(init, buffer, LineTokens(buffer), 0);
  }

  // ---------------------------------------------------------------------
  // Short lines
  // ---------------------------------------------------------------------

  /** A line of spaces and commas only (the empty line included) parses to nothing. */
  lemma BlankLine(cap: nat, distance: u8, buffer: string)
    requires forall k :: 0 <= k < |buffer| ==> buffer[k] == ' ' || buffer[k] == ','
    ensures ParseSpec(cap, distance, buffer) == Parsed(Nothing, State([], [], distance, NO_PROGRAM))
  {
    assert SkipDelims(buffer, DELIMITERS, 0) == |buffer|;
  }

  /** Any prefix of `open` or `close` on its own is a program of that one command. */
  lemma SingleCommand(cap: nat, distance: u8, w: string, kind: CommandKind)
    requires CommandWord(w, kind)
    ensures ParseSpec(cap, distance, w) == Parsed(ProgramParsed, State([Command(kind, 0)], [], distance, NO_PROGRAM))
  {
    CommandWordIsPlain(w, kind);
    SingleWord(w);
    assert w[0..|w|] == w;
    var init := Scan(State([], [], distance, NO_PROGRAM), More, ProgramParsed);
    var s1 := init.(state := init.state.(items := [Command(kind, 0)]));
    FirstCommand(init, cap, w, kind);
    assert RunSpec(s1, cap, w, LineTokens(w), 1) == s1;
  }

  /** The first command of a line, with nothing before it, is the program's first item. */
  lemma FirstCommand(s: Scan, cap: nat, w: string, kind: CommandKind)
    requires CommandWord(w, kind) && s.state.items == [] && s.state.err == [] && s.expects == More
    ensures ExtraArgsSpec(s, cap, w, 0) == s
    ensures StepSpec(s, cap, w, 0) == s.(state := s.state.(items := [Command(kind, 0)]))
  {
    CommandStep(s, cap, w, kind, 0);
  }

  /** A command word, with no error pending, is inserted by `safe_insert`. */
  lemma CommandStep(s: Scan, cap: nat, w: string, kind: CommandKind, pos: nat)
    requires CommandWord(w, kind) && s.state.err == [] && s.expects == More
    ensures StepSpec(s, cap, w, pos) == s.(state := SafeInsertSpec(s.state, cap, kind, pos))
  {
    CommandWordIsPlain(w, kind);
    assert GetDelaySpec(s.state, cap, w, pos) == DelayOutcome(false, 0, s.state);
    if kind == Close {
      assert !StartsWith("open", w) by {
        assert w[0] != "open"[0];
      }
    }
  }

  /** A delay after a command becomes that command's delay. */
  lemma CommandThenDelay(cap: nat, distance: u8, w: string, kind: CommandKind, digits: string, unit: string, factor: nat)
    requires CommandWord(w, kind)
    requires digits != [] && AllDigits(digits) && UnitFactor(unit, factor)
    ensures var r := ParseSpec(cap, distance, w + " " + (digits + unit));
      && r.result == ProgramParsed && r.state.err == []
      && r.state.items == [Command(kind, (StrToUL(digits) * factor) % TWO_POW_32)]
  {
    CommandWordIsPlain(w, kind);
    NumberIsPlain(digits, unit, factor);
    var init := Scan(State([], [], distance, NO_PROGRAM), More, ProgramParsed);
    FirstCommand(init, cap, w, kind);
    var s1 := init.(state := init.state.(items := [Command(kind, 0)]));
    assert ExtraArgsSpec(s1, cap, digits + unit, |w| + 1) == s1;
    DelayAfterCommand(s1, cap, digits, unit, factor, |w| + 1);
    var s3 := StepSpec(s1, cap, digits + unit, |w| + 1);
    var v := (StrToUL(digits) * factor) % TWO_POW_32;
    assert s3.state.items == [Command(kind, v)] && s3.state.err == [] && s3.result == ProgramParsed;
    var line := w + " " + (digits + unit);
    RunTwo(init, cap, w, digits + unit);
    assert RunSpec(init, cap, line, LineTokens(line), 0) == s3;
    assert FinishSpec(s3, cap) == Parsed(ProgramParsed, s3.state);
  }

  lemma NumberIsPlain(digits: string, unit: string, factor: nat)
    requires AllDigits(digits) && UnitFactor(unit, factor)
    ensures Plain(digits + unit)
  {
    forall k | 0 <= k < |digits + unit|
      ensures (digits + unit)[k] != ' ' && (digits + unit)[k] != ','
    {
      if k >= |digits| {
        assert (digits + unit)[k] == unit[k - |digits|];
      }
    }
  }

  /** A delay token where more tokens may come adds to the last item, if there is one. */
  lemma StepOnDelay(s: Scan, cap: nat, token: string, pos: nat)
    requires s.expects == More
    requires GetDelaySpec(s.state, cap, token, pos).ok && GetDelaySpec(s.state, cap, token, pos).state.items != []
    ensures var d := GetDelaySpec(s.state, cap, token, pos);
      StepSpec(s, cap, token, pos) == s.(state := AddToBack(d.state, d.value))
  {
  }

  /** A delay added to an item without a delay becomes its delay. */
  lemma AddToNoDelay(st: State, v: u32)
    requires st.items != [] && st.items[|st.items| - 1].delayMs == 0
    ensures AddToBack(st, v).items == st.items[|st.items| - 1 := st.items[|st.items| - 1].(delayMs := v)]
  {
    assert (0 + v) % TWO_POW_32 == v;
  }

  /** A delay token on a program without items is inserted as a delay item. */
  lemma StepOnFirstDelay(s: Scan, cap: nat, token: string, pos: nat)
    requires s.expects == More
    requires GetDelaySpec(s.state, cap, token, pos).ok && GetDelaySpec(s.state, cap, token, pos).state.items == []
    ensures var d := GetDelaySpec(s.state, cap, token, pos);
      StepSpec(s, cap, token, pos) == s.(state := SafeInsertSpec(d.state, cap, Delay, pos))
  {
  }

  /** The first item of a program is inserted as it is, unless it is the loop marker. */
  lemma InsertFirst(st: State, cap: nat, c: CommandKind, pos: nat)
    requires st.items == [] && c != Loop
    ensures SafeInsertSpec(st, cap, c, pos) == st.(items := [Command(c, 0)])
  {
  }

  /** A delay token after a one-command program sets that command's delay. */
  lemma DelayAfterCommand(s: Scan, cap: nat, digits: string, unit: string, factor: nat, pos: nat)
    requires digits != [] && AllDigits(digits) && UnitFactor(unit, factor)
    requires |s.state.items| == 1 && s.state.items[0].delayMs == 0 && s.state.err == [] && s.expects == More
    ensures StepSpec(s, cap, digits + unit, pos).state.items
         == [s.state.items[0].(delayMs := (StrToUL(digits) * factor) % TWO_POW_32)]
    ensures StepSpec(s, cap, digits + unit, pos).state.err == []
    ensures StepSpec(s, cap, digits + unit, pos).result == s.result
    ensures StepSpec(s, cap, digits + unit, pos).expects == More
  {
    DelayUnits(s.state, cap, digits, unit, factor, pos);
    var d := GetDelaySpec(s.state, cap, digits + unit, pos);
    var st := d.state;
    assert d.ok && st.items == s.state.items && st.err == [];
    assert |st.items| == 1 && st.items[0].delayMs == 0;
    StepOnDelay(s, cap, digits + unit, pos);
    AddToNoDelay(st, d.value);
  }

  /**
   * A delay as the first token inserts a delay item with no delay: its
   * value is lost, and the command after it turns that into one second.
   */
  lemma LeadingDelayIsDropped(cap: nat, distance: u8, digits: string, unit: string, factor: nat, w: string, kind: CommandKind)
    requires digits != [] && AllDigits(digits) && UnitFactor(unit, factor)
    requires CommandWord(w, kind)
    ensures var r := ParseSpec(cap, distance, (digits + unit) + " " + w);
      r.result == ProgramParsed && r.state.err == [] && r.state.items == [Command(Delay, 1000), Command(kind, 0)]
  {
    CommandWordIsPlain(w, kind);
    NumberIsPlain(digits, unit, factor);
    var init := Scan(State([], [], distance, NO_PROGRAM), More, ProgramParsed);
    var p := |digits + unit| + 1;
    DelayThenCommand(init, cap, digits, unit, factor, w, kind, p);
    var s1 := StepSpec(init, cap, digits + unit, 0);
    assert ExtraArgsSpec(init, cap, digits + unit, 0) == init;
    var s3 := StepSpec(s1, cap, w, p);
    var line := (digits + unit) + " " + w;
    RunTwo(init, cap, digits + unit, w);
    assert ExtraArgsSpec(s1, cap, w, p) == s1 && s1.state.err == [];
    assert RunSpec(init, cap, line, LineTokens(line), 0) == s3;
    assert FinishSpec(s3, cap) == Parsed(ProgramParsed, s3.state);
  }

  /** The two steps of a leading delay and a command word. */
  lemma DelayThenCommand(s: Scan, cap: nat, digits: string, unit: string, factor: nat, w: string, kind: CommandKind, p: nat)
    requires digits != [] && AllDigits(digits) && UnitFactor(unit, factor) && CommandWord(w, kind)
    requires s.state.items == [] && s.state.err == [] && s.expects == More
    ensures var s1 := StepSpec(s, cap, digits + unit, 0);
      && s1.state.err == [] && ExtraArgsSpec(s1, cap, w, p) == s1
      && StepSpec(s1, cap, w, p).state.items == [Command(Delay, 1000), Command(kind, 0)]
      && StepSpec(s1, cap, w, p).state.err == [] && StepSpec(s1, cap, w, p).result == s.result
  {
    LeadingDelay(s, cap, digits, unit, factor);
    var s1 := StepSpec(s, cap, digits + unit, 0);
    assert ExtraArgsSpec(s1, cap, w, p) == s1;
    CommandStep(s1, cap, w, kind, p);
    var s3 := StepSpec(s1, cap, w, p);
    assert s3.state == SafeInsertSpec(s1.state, cap, kind, p);
    InsertAfterNoDelay(s1.state, cap, kind, p);
    assert s1.state.items[0 := Command(Delay, 1000)] == [Command(Delay, 1000)];
  }

  /** A command inserted after an item without a delay gives that item the default second. */
  lemma InsertAfterNoDelay(st: State, cap: nat, c: CommandKind, pos: nat)
    requires 0 < |st.items| < MAX_ITEMS && st.items[|st.items| - 1].kind != Loop
    requires c != Delay && c != Loop && st.items[|st.items| - 1].delayMs == 0
    ensures var n := |st.items|;
      SafeInsertSpec(st, cap, c, pos) == st.(items := st.items[n - 1 := st.items[n - 1].(delayMs := 1000)] + [Command(c, 0)])
  {
  }

  /** A delay token on an empty program inserts a delay item without a delay. */
  lemma LeadingDelay(s: Scan, cap: nat, digits: string, unit: string, factor: nat)
    requires digits != [] && AllDigits(digits) && UnitFactor(unit, factor)
    requires s.state.items == [] && s.state.err == [] && s.expects == More
    ensures StepSpec(s, cap, digits + unit, 0).state.items == [Command(Delay, 0)]
    ensures StepSpec(s, cap, digits + unit, 0).state.err == []
    ensures StepSpec(s, cap, digits + unit, 0).result == s.result
    ensures StepSpec(s, cap, digits + unit, 0).expects == More
  {
    DelayUnits(s.state, cap, digits, unit, factor, 0);
    var d := GetDelaySpec(s.state, cap, digits + unit, 0);
    assert d.ok && d.state.items == [] && d.state.err == [];
    assert StepSpec(s, cap, digits + unit, 0) == s.(state := SafeInsertSpec(d.state, cap, Delay, 0));
  }

  /** A lone single digit is a request to run that program. */
  lemma LoneDigitRuns(cap: nat, distance: u8, digit: char)
    requires IsDigit(digit)
    ensures ParseSpec(cap, distance, [digit])
         == Parsed(Run, State([Command(Delay, 0)], [], distance, (digit as int - '0' as int) as u8))
  {
    SingleWord([digit]);
    assert [digit] + "" == [digit] && [digit][0..1] == [digit];
    assert DigitsValue([digit]) == digit as int - '0' as int by {
      assert [digit][..0] == [];
    }
    var init := Scan(State([], [], distance, NO_PROGRAM), More, ProgramParsed);
    DelayUnits(init.state, cap, [digit], "", 1000, 0);
    var d := GetDelaySpec(init.state, cap, [digit], 0);
    var n := (digit as int - '0' as int) as u8;
    assert d.ok && d.state == init.state.(programNumber := n);
    StepOnFirstDelay(init, cap, [digit], 0);
    var s1 := init.(state := State([Command(Delay, 0)], [], distance, n));
    InsertFirst(d.state, cap, Delay, 0);
    assert StepSpec(init, cap, [digit], 0) == s1;
    var spans := LineTokens([digit]);
    assert ExtraArgsSpec(init, cap, [digit], 0) == init;
    assert RunSpec(s1, cap, [digit], spans, 1) == s1;
    assert RunSpec(init, cap, [digit], spans, 0) == s1;
    assert n != NO_PROGRAM && s1.state.items[0].kind == Delay;
    assert FinishSpec(s1, cap) == Parsed(Run, s1.state);
  }

  /**
   * An interactive command word (any non-empty prefix of `help`, `list`,
   * `quit`, `auto`, `save`, `run` or `delete`).
   */
  predicate InteractiveWord(h: string)
  {
    h != [] && (StartsWith("help", h) || StartsWith("list", h) || StartsWith("quit", h) || StartsWith("auto", h)
                || StartsWith("save", h) || StartsWith("run", h) || StartsWith("delete", h))
  }

  lemma InteractiveWordIsPlain(h: string)
    requires InteractiveWord(h)
    ensures Plain(h) && !IsDigit(h[0]) && h[0] != 'o' && h[0] != 'c' && h != "*"
  {
    var w :| w in ["help", "list", "quit", "auto", "save", "run", "delete"] && StartsWith(w, h);
    assert Plain(w);
    PrefixIsPlain(h, w);
    assert h[0] == w[0];
  }

  /** Once the program has an item, an interactive command word is unexpected. */
  lemma InteractiveOnlyFirst(s: Scan, cap: nat, h: string, pos: nat)
    requires InteractiveWord(h) && s.state.items != [] && s.expects == More && s.state.err == []
    ensures StepSpec(s, cap, h, pos) == s.(state := s.state.(err := Clip("Unexpected: '" + h + "'", cap), distance := ToU8(pos)))
  {
    InteractiveWordIsPlain(h);
    assert !StartsWith("open", h) && !StartsWith("close", h) by {
      assert h[0] != "open"[0] && h[0] != "close"[0];
    }
  }

  /** `open help` (or any command, then an interactive word) is an error pointing at the second word. */
  lemma CommandThenInteractive(cap: nat, distance: u8, w: string, kind: CommandKind, h: string)
    requires cap > 0 && CommandWord(w, kind) && InteractiveWord(h)
    ensures var r := ParseSpec(cap, distance, w + " " + h);
      && r.result == Error && r.state.err == Clip("Unexpected: '" + h + "'", cap)
      && r.state.distance == ToU8(|w| + 1) && r.state.items == [Command(kind, 0)]
  {
    CommandWordIsPlain(w, kind);
    InteractiveWordIsPlain(h);
    var init := Scan(State([], [], distance, NO_PROGRAM), More, ProgramParsed);
    FirstCommand(init, cap, w, kind);
    var s1 := init.(state := init.state.(items := [Command(kind, 0)]));
    InteractiveOnlyFirst(s1, cap, h, |w| + 1);
    RunTwo(init, cap, w, h);
  }

  /** A word after `help`, `list` or `quit` is an extra argument, reported as an error. */
  lemma ExtraArgument(cap: nat, distance: u8, h: string, x: string)
    requires cap > 0 && h != [] && (StartsWith("help", h) || StartsWith("list", h) || StartsWith("quit", h))
    requires x != [] && Plain(x)
    ensures var r := ParseSpec(cap, distance, h + " " + x);
      && r.result == Error && r.state.err == Clip("Unexpected extra arg(s): '" + x + "'", cap)
      && r.state.distance == ToU8(|h| + 1) && r.state.items == []
  {
    assert InteractiveWord(h);
    InteractiveWordIsPlain(h);
    var init := Scan(State([], [], distance, NO_PROGRAM), More, ProgramParsed);
    assert !StartsWith("open", h) && !StartsWith("close", h) by {
      assert h[0] != "open"[0] && h[0] != "close"[0];
    }
    var s1 := StepSpec(init, cap, h, 0);
    assert s1.state == init.state && s1.expects == NoMore;
    assert ExtraArgsSpec(s1, cap, x, |h| + 1).state.err != [];
    RunTwo(init, cap, h, x);
  }

  /**
   * `save`, `run`, `delete` and `auto` followed by a digit report their
   * result and the program number, with an empty program; `auto` reports
   * `Quit`, and `save 0` and `delete 0` are accepted.
   */
  lemma ProgramCommand(cap: nat, distance: u8, h: string, digit: char, res: Result)
    requires h != [] && IsDigit(digit)
    requires || (StartsWith("save", h) && res == Save) || (StartsWith("run", h) && res == Run)
             || (StartsWith("delete", h) && res == Delete) || (StartsWith("auto", h) && res == Quit)
    ensures ParseSpec(cap, distance, h + " " + [digit])
         == Parsed(res, State([], [], distance, (digit as int - '0' as int) as u8))
  {
    assert InteractiveWord(h);
    InteractiveWordIsPlain(h);
    assert h[0] == 's' || h[0] == 'r' || h[0] == 'd' || h[0] == 'a' by {
      if StartsWith("save", h) { assert h[0] == "save"[0]; }
      else if StartsWith("run", h) { assert h[0] == "run"[0]; }
      else if StartsWith("delete", h) { assert h[0] == "delete"[0]; }
      else { assert h[0] == "auto"[0]; }
    }
    assert !StartsWith("help", h) && !StartsWith("list", h) && !StartsWith("quit", h) by {
      assert h[0] != "help"[0] && h[0] != "list"[0] && h[0] != "quit"[0];
    }
    assert !StartsWith("open", h) && !StartsWith("close", h) by {
      assert h[0] != "open"[0] && h[0] != "close"[0];
    }
    var init := Scan(State([], [], distance, NO_PROGRAM), More, ProgramParsed);
    var s1 := StepSpec(init, cap, h, 0);
    assert s1.state == init.state && s1.result == res;
    assert s1.expects == AnyProgram || s1.expects == ProgramOneToNine;
    var s2 := StepSpec(s1, cap, [digit], |h| + 1);
    assert s2.state == init.state.(programNumber := (digit as int - '0' as int) as u8);
    RunTwo(init, cap, h, [digit]);
  }
}
