/**
 * The parser of the relay command language. A line such as `o 10 c 5s *`
 * is cut into tokens at spaces and commas; each token is a command (any
 * prefix of `open` or `close`), the loop marker `*`, a delay (digits and
 * an optional unit), or, as the first token only, an interactive command
 * (`help`, `list`, `quit`, `auto`, `save`, `run`, `delete`), some of which
 * take a program number.
 *
 * The parser fills a `Program` it is given, writes its error text into a
 * string of fixed capacity (longer texts are cut at the capacity), and
 * records where the error is (`distance`) and the program number.
 *
 * The parser is proved against a specification of one token step
 * (`StepSpec`), the run over all tokens (`RunSpec`) and the final checks
 * (`FinishSpec`); the properties of the language are lemmas about those.
 */
module CommandParser {
  import opened Base
  import opened ProgramModel
  import opened Tokenizer

  /** What `parse` reports. */
  datatype Result = ProgramParsed | Nothing | Error | Help | List | Quit | Save | Run | Delete

  /** What the next token may be. */
  datatype Expect = More | NoMore | AnyProgram | ProgramOneToNine

  /** The delimiters between tokens. */
  const DELIMITERS: string := " ,"

  /** The value `program_number` holds when no number was given. */
  const NO_PROGRAM: u8 := 255

  /** The state shared with the caller: the program, the error text, its position and the program number. */
  datatype State = State(items: seq<Command>, err: string, distance: u8, programNumber: u8)

  /** The state of a parse in progress: adds the loop's `expects` and the provisional result. */
  datatype Scan = Scan(state: State, expects: Expect, result: Result)

  /** What `parse` returns and the state it leaves. */
  datatype Parsed = Parsed(result: Result, state: State)

  datatype DelayOutcome = DelayOutcome(ok: bool, value: u32, state: State)

  datatype NumberOutcome = NumberOutcome(ok: bool, state: State)

  /** `command.starts_with(token)` */
  predicate StartsWith(command: string, token: string)
  {
    token <= command
  }

  // ---------------------------------------------------------------------
  // Delays
  // ---------------------------------------------------------------------

  /** The length of the run of digits `strtoul` consumes at the start of `s`. */
  function DigitCount(s: string): (n: nat)
    ensures n <= |s| && AllDigits(s[..n])
    ensures n < |s| ==> !IsDigit(s[n])
  {
    if s == [] || !IsDigit(s[0]) then 0
    else
      var n := 1 + DigitCount(s[1..]);
      assert s[..n] == [s[0]] + s[1..][..n - 1];
      n
  }

  /** `strtoul` on a 32-bit `unsigned long`: values past the range read as the largest one. */
  function StrToUL(digits: string): (n: nat)
    requires AllDigits(digits)
    ensures n < TWO_POW_32
  {
    Min(DigitsValue(digits), TWO_POW_32 - 1)
  }

  /** The unit table, in the order it is searched, with each unit's factor to milliseconds. */
  const UNITS: seq<(string, nat)> := [("H", 3600000), ("M", 60000), ("s", 1000), ("m", 1), ("", 1000)]

  /** The factor of the first table entry whose unit equals `unit`. */
  function FindUnit(table: seq<(string, nat)>, unit: string): (f: Option<nat>)
    ensures f.Some? <==> exists k :: 0 <= k < |table| && table[k].0 == unit
    ensures f.Some? ==> exists k :: 0 <= k < |table| && table[k] == (unit, f.value)
  {
    if table == [] then None
    else if table[0].0 == unit then Some(table[0].1)
    else
      var f := FindUnit(table[1..], unit);
      assert forall k :: 1 <= k < |table| ==> table[k] == table[1..][k - 1];
      f
  }

  /**
   * `get_delay(value, token)` for a token at position `pos` of the line:
   * a token that starts with a digit is a number followed by a unit. A
   * known unit gives the number times the unit's factor, in 32-bit
   * arithmetic; an unknown one sets "Invalid unit" and points at the
   * unit. A lone number below 10 is also taken as a program number.
   */
  function GetDelaySpec(st: State, cap: nat, token: string, pos: nat): DelayOutcome
  {
    if token == [] || !IsDigit(token[0]) then DelayOutcome(false, 0, st)
    else
      var n := DigitCount(token);
      var number := StrToUL(token[..n]);
      var unit := token[n..];
      var st1 := if number < 10 && unit == [] then st.(programNumber := number as u8) else st;
      match FindUnit(UNITS, unit)
      case Some(f) => DelayOutcome(true, (number * f) % TWO_POW_32, st1)
      case None =>
        DelayOutcome(false, 0, st1.(err := Clip("Invalid unit: '" + unit + "'", cap), distance := ToU8(pos + n)))
  }

  /** `get_program_number(token)`: a single digit is the program number; its error names no position. */
  function GetProgramNumberSpec(st: State, cap: nat, token: string): NumberOutcome
  {
    if |token| == 1 && IsDigit(token[0]) then
      NumberOutcome(true, st.(programNumber := (token[0] as int - '0' as int) as u8))
    else NumberOutcome(false, st.(err := Clip("Expecting a program number", cap)))
  }

  // ---------------------------------------------------------------------
  // Building the program
  // ---------------------------------------------------------------------

  /** `safe_insert(c, token)`: appends a command unless one of the three insertion rules forbids it. */
  function SafeInsertSpec(st: State, cap: nat, c: CommandKind, pos: nat): State
  {
    var items := st.items;
    if |items| >= MAX_ITEMS then st.(err := Clip("Too many items", cap), distance := ToU8(pos))
    else if items != [] && items[|items| - 1].kind == Loop then
      st.(err := Clip("No commands allowed past *", cap), distance := ToU8(pos))
    else if items == [] && c == Loop then
      st.(err := Clip("Loop not allowed as first action", cap), distance := ToU8(pos))
    else
      var filled := if c != Delay && items != [] && items[|items| - 1].delayMs == 0
        then items[|items| - 1 := items[|items| - 1].(delayMs := 1000)] else items;
      st.(items := filled + [Command(c, 0)])
  }

  /** A delay following a command adds to that command's delay (a `uint32_t` sum). */
  function AddToBack(st: State, value: u32): State
    requires st.items != []
  {
    var last := st.items[|st.items| - 1];
    st.(items := st.items[|st.items| - 1 := last.(delayMs := (last.delayMs + value) % TWO_POW_32)])
  }

  function Unexpected(st: State, cap: nat, token: string, pos: nat): State
  {
    st.(err := Clip("Unexpected: '" + token + "'", cap), distance := ToU8(pos))
  }

  /** A token that is not a delay: a command, the loop marker, or an interactive command. */
  function CommandSpec(s: Scan, cap: nat, token: string, pos: nat): Scan
  {
    if StartsWith("open", token) then s.(state := SafeInsertSpec(s.state, cap, Open, pos))
    else if StartsWith("close", token) then s.(state := SafeInsertSpec(s.state, cap, Close, pos))
    else if token == "*" then s.(state := SafeInsertSpec(s.state, cap, Loop, pos))
    else if s.state.items != [] then s.(state := Unexpected(s.state, cap, token, pos))
    else if StartsWith("help", token) then s.(result := Help, expects := NoMore)
    else if StartsWith("list", token) then s.(result := List, expects := NoMore)
    else if StartsWith("quit", token) then s.(result := Quit, expects := NoMore)
    else if StartsWith("auto", token) then s.(result := Quit, expects := AnyProgram)
    else if StartsWith("save", token) then s.(result := Save, expects := ProgramOneToNine)
    else if StartsWith("run", token) then s.(result := Run, expects := AnyProgram)
    else if StartsWith("delete", token) then s.(result := Delete, expects := ProgramOneToNine)
    else s.(state := Unexpected(s.state, cap, token, pos))
  }

  /** The check for a token after a command that takes no more arguments. */
  function ExtraArgsSpec(s: Scan, cap: nat, token: string, pos: nat): Scan
  {
    if s.expects == NoMore then
      s.(state := s.state.(err := Clip("Unexpected extra arg(s): '" + token + "'", cap), distance := ToU8(pos)))
    else s
  }

  /** One token, once the extra-argument check has let it through. */
  function StepSpec(s: Scan, cap: nat, token: string, pos: nat): Scan
  {
    if s.expects == AnyProgram || s.expects == ProgramOneToNine then
      var g := GetProgramNumberSpec(s.state, cap, token);
      if g.ok then s.(state := g.state, expects := NoMore)
      else
        var lowest := if s.expects == AnyProgram then '0' else '1';
        s.(state := g.state.(err := Clip("Expecting a number " + [lowest] + " to 9. Got '" + token + "'", cap),
                             distance := ToU8(pos)))
    else
      var d := GetDelaySpec(s.state, cap, token, pos);
      if d.ok then
        if d.state.items != [] then s.(state := AddToBack(d.state, d.value))
        else s.(state := SafeInsertSpec(d.state, cap, Delay, pos))
      else if d.state.err == [] then CommandSpec(s.(state := d.state), cap, token, pos)
      else s.(state := d.state)
  }

  predicate InBounds(buffer: string, spans: seq<Span>)
  {
    forall k :: 0 <= k < |spans| ==> spans[k].start <= spans[k].end <= |buffer|
  }

  /** The tokens `spans[i..]` of `buffer`: the loop stops at the first token met with an error pending. */
  function RunSpec(s: Scan, cap: nat, buffer: string, spans: seq<Span>, i: nat): Scan
    requires InBounds(buffer, spans) && i <= |spans|
    decreases |spans| - i
  {
    if i == |spans| then s
    else
      var token := buffer[spans[i].start..spans[i].end];
      var s1 := ExtraArgsSpec(s, cap, token, spans[i].start);
      if s1.state.err != [] then s1
      else RunSpec(StepSpec(s1, cap, token, spans[i].start), cap, buffer, spans, i + 1)
  }

  /** The checks after the last token. */
  function FinishSpec(s: Scan, cap: nat): Parsed
  {
    var st := s.state;
    if st.err != [] then Parsed(Error, st)
    else if s.result != ProgramParsed then Parsed(s.result, st)
    else if st.items == [] then Parsed(Nothing, st)
    else if |st.items| == 1 && st.items[0].kind == Delay then
      if st.programNumber == NO_PROGRAM then
        Parsed(ProgramParsed, st.(err := Clip("A delay must be followed by 'open' or 'close'", cap)))
      else Parsed(Run, st)
    else Parsed(ProgramParsed, st)
  }

  /** The tokens of a line. */
  function LineTokens(buffer: string): seq<Span>
  {
    Spans(buffer, DELIMITERS, [], 0)
  }

  /**
   * `parse(buffer)` with an error string of capacity `cap`; `distance`
   * is the error position left by an earlier parse, which a parse that
   * finds no error does not change.
   */
  function ParseSpec(cap: nat, distance: u8, buffer: string): Parsed
  {
    var init := Scan(State([], [], distance, NO_PROGRAM), More, ProgramParsed);
    FinishSpec(RunSpec(init, cap, buffer, LineTokens(buffer), 0), cap)
  }

  /** A scan with its error position blanked: everything a parse computes but where an earlier error was. */
  function Blind(s: Scan): Scan
  {
    s.(state := s.state.(distance := 0))
  }

  /** The position of an earlier error plays no part in reading a delay. */
  lemma DelayBlind(st1: State, st2: State, cap: nat, token: string, pos: nat)
    requires st1.(distance := 0) == st2.(distance := 0)
    ensures var d1, d2 := GetDelaySpec(st1, cap, token, pos), GetDelaySpec(st2, cap, token, pos);
      d1.ok == d2.ok && d1.value == d2.value && d1.state.(distance := 0) == d2.state.(distance := 0)
  {
  }

  /** Nor in inserting a command. */
  lemma InsertBlind(st1: State, st2: State, cap: nat, c: CommandKind, pos: nat)
    requires st1.(distance := 0) == st2.(distance := 0)
    ensures SafeInsertSpec(st1, cap, c, pos).(distance := 0) == SafeInsertSpec(st2, cap, c, pos).(distance := 0)
  {
    assert st1.items == st2.items;
  }

  /** Nor in a token that is not a delay. */
  lemma CommandBlind(s1: Scan, s2: Scan, cap: nat, token: string, pos: nat)
    requires Blind(s1) == Blind(s2)
    ensures Blind(CommandSpec(s1, cap, token, pos)) == Blind(CommandSpec(s2, cap, token, pos))
  {
    assert s1.state.(distance := 0) == s2.state.(distance := 0);
    InsertBlind(s1.state, s2.state, cap, Open, pos);
    InsertBlind(s1.state, s2.state, cap, Close, pos);
    InsertBlind(s1.state, s2.state, cap, Loop, pos);
  }

  /** Nor in one token's step. */
  lemma StepBlind(s1: Scan, s2: Scan, cap: nat, token: string, pos: nat)
    requires Blind(s1) == Blind(s2)
    ensures Blind(ExtraArgsSpec(s1, cap, token, pos)) == Blind(ExtraArgsSpec(s2, cap, token, pos))
    ensures Blind(StepSpec(s1, cap, token, pos)) == Blind(StepSpec(s2, cap, token, pos))
  {
    assert s1.state.(distance := 0) == s2.state.(distance := 0);
    if !(s1.expects == AnyProgram || s1.expects == ProgramOneToNine) {
      DelayBlind(s1.state, s2.state, cap, token, pos);
      var d1, d2 := GetDelaySpec(s1.state, cap, token, pos), GetDelaySpec(s2.state, cap, token, pos);
      if d1.ok {
        if d1.state.items == [] {
          InsertBlind(d1.state, d2.state, cap, Delay, pos);
        }
      } else if d1.state.err == [] {
        CommandBlind(s1.(state := d1.state), s2.(state := d2.state), cap, token, pos);
      }
    }
  }

  /** Nor in the token loop. */
  lemma {:induction false} RunBlind(s1: Scan, s2: Scan, cap: nat, buffer: string, spans: seq<Span>, i: nat)
    requires InBounds(buffer, spans) && i <= |spans| && Blind(s1) == Blind(s2)
    ensures Blind(RunSpec(s1, cap, buffer, spans, i)) == Blind(RunSpec(s2, cap, buffer, spans, i))
    decreases |spans| - i
  {
    if i < |spans| {
      var token := buffer[spans[i].start..spans[i].end];
      StepBlind(s1, s2, cap, token, spans[i].start);
      var e1 := ExtraArgsSpec(s1, cap, token, spans[i].start);
      var e2 := ExtraArgsSpec(s2, cap, token, spans[i].start);
      if e1.state.err == [] {
        StepBlind(e1, e2, cap, token, spans[i].start);
        RunBlind(StepSpec(e1, cap, token, spans[i].start), StepSpec(e2, cap, token, spans[i].start), cap, buffer, spans, i + 1);
      }
    }
  }

  /** So the program and the result of a parse do not depend on the error position it starts from. */
  lemma ParseIgnoresDistance(cap: nat, d1: u8, d2: u8, buffer: string)
    ensures ParseSpec(cap, d1, buffer).result == ParseSpec(cap, d2, buffer).result
    ensures ParseSpec(cap, d1, buffer).state.items == ParseSpec(cap, d2, buffer).state.items
  {
    var init1 := Scan(State([], [], d1, NO_PROGRAM), More, ProgramParsed);
    var init2 := Scan(State([], [], d2, NO_PROGRAM), More, ProgramParsed);
    RunBlind(init1, init2, cap, buffer, LineTokens(buffer), 0);
    var r1 := RunSpec(init1, cap, buffer, LineTokens(buffer), 0);
    var r2 := RunSpec(init2, cap, buffer, LineTokens(buffer), 0);
    assert r1.state.(distance := 0) == r2.state.(distance := 0);
  }

  // ---------------------------------------------------------------------
  // The parser object
  // ---------------------------------------------------------------------

  class Parser {
    /** The program the parser fills. */
    const live: Program
    /** The capacity of the caller's error string. */
    const errCap: nat
    var err: string
    var distance: u8
    var programNumber: u8

    function Current(): State
      reads this, live
    {
      State(live.items, err, distance, programNumber)
    }

    constructor(program: Program, errCap: nat)
      ensures live == program && this.errCap == errCap && err == []
    {
      live := program;
      this.errCap := errCap;
      err := [];
      distance := 0;
      programNumber := NO_PROGRAM;
    }

    method GetDelay(token: string, pos: nat) returns (ok: bool, value: u32)
      modifies this`err, this`distance, this`programNumber
      ensures ok == GetDelaySpec(old(Current()), errCap, token, pos).ok
      ensures ok ==> value == GetDelaySpec(old(Current()), errCap, token, pos).value
      ensures Current() == GetDelaySpec(old(Current()), errCap, token, pos).state
    {
      ok, value := false, 0;
      if token != [] && IsDigit(token[0]) {
        var n := DigitCount(token);
        var number := StrToUL(token[..n]);
        var unit := token[n..];
        if number < 10 && unit == [] {
          programNumber := number as u8;
        }
        var factor := FindUnit(UNITS, unit);
        if factor.Some? {
          value := (number * factor.value) % TWO_POW_32;
          ok := true;
        } else {
          err := Clip("Invalid unit: '" + unit + "'", errCap);
          distance := ToU8(pos + n);
        }
      }
    }

    method GetProgramNumber(token: string) returns (ok: bool)
      modifies this`err, this`programNumber
      ensures ok == GetProgramNumberSpec(old(Current()), errCap, token).ok
      ensures Current() == GetProgramNumberSpec(old(Current()), errCap, token).state
    {
      if |token| != 1 || !IsDigit(token[0]) {
        err := Clip("Expecting a program number", errCap);
        ok := false;
      } else {
        programNumber := (token[0] as int - '0' as int) as u8;
        ok := true;
      }
    }

    method SafeInsert(c: CommandKind, pos: nat)
      requires live.Valid()
      modifies live, this`err, this`distance
      ensures live.Valid()
      ensures Current() == SafeInsertSpec(old(Current()), errCap, c, pos)
    {
      var n := |live.items|;
      if n == MAX_ITEMS {
        err := Clip("Too many items", errCap);
        distance := ToU8(pos);
      } else if n != 0 && live.items[n - 1].kind == Loop {
        err := Clip("No commands allowed past *", errCap);
        distance := ToU8(pos);
      } else if n == 0 && c == Loop {
        err := Clip("Loop not allowed as first action", errCap);
        distance := ToU8(pos);
      } else {
        if c != Delay && n != 0 && live.items[n - 1].delayMs == 0 {
          live.SetBackDelay(1000);
        }
        live.PushBack(Command(c, 0));
      }
    }

    /** A token that is not a delay, with no error pending. */
    method CommandToken(token: string, pos: nat, s: Scan) returns (s': Scan)
      requires live.Valid() && s.state == Current()
      modifies live, this`err, this`distance
      ensures live.Valid()
      ensures s' == CommandSpec(s, errCap, token, pos) && s'.state == Current()
    {
      s' := s;
      if StartsWith("open", token) {
        SafeInsert(Open, pos);
      } else if StartsWith("close", token) {
        SafeInsert(Close, pos);
      } else if token == "*" {
        SafeInsert(Loop, pos);
      } else if live.items != [] {
        err := Clip("Unexpected: '" + token + "'", errCap);
        distance := ToU8(pos);
      } else if StartsWith("help", token) {
        s' := s.(result := Help, expects := NoMore);
      } else if StartsWith("list", token) {
        s' := s.(result := List, expects := NoMore);
      } else if StartsWith("quit", token) {
        s' := s.(result := Quit, expects := NoMore);
      } else if StartsWith("auto", token) {
        s' := s.(result := Quit, expects := AnyProgram);
      } else if StartsWith("save", token) {
        s' := s.(result := Save, expects := ProgramOneToNine);
      } else if StartsWith("run", token) {
        s' := s.(result := Run, expects := AnyProgram);
      } else if StartsWith("delete", token) {
        s' := s.(result := Delete, expects := ProgramOneToNine);
      } else {
        err := Clip("Unexpected: '" + token + "'", errCap);
        distance := ToU8(pos);
      }
      s' := s'.(state := Current());
    }

    /** One token of the loop in `parse`, after the extra-argument check. */
    method Step(token: string, pos: nat, s: Scan) returns (s': Scan)
      requires live.Valid() && s.state == Current()
      modifies live, this`err, this`distance, this`programNumber
      ensures live.Valid()
      ensures s' == StepSpec(s, errCap, token, pos) && s'.state == Current()
    {
      s' := s;
      if s.expects == AnyProgram || s.expects == ProgramOneToNine {
        var ok := GetProgramNumber(token);
        if !ok {
          var lowest := if s.expects == AnyProgram then '0' else '1';
          err := Clip("Expecting a number " + [lowest] + " to 9. Got '" + token + "'", errCap);
          distance := ToU8(pos);
        } else {
          s' := s'.(expects := NoMore);
        }
        s' := s'.(state := Current());
      } else {
        var ok, number := GetDelay(token, pos);
        if ok {
          var n := |live.items|;
          if n != 0 {
            live.SetBackDelay((live.items[n - 1].delayMs + number) % TWO_POW_32);
          } else {
            SafeInsert(Delay, pos);
          }
          s' := s'.(state := Current());
        } else if err == [] {
          s' := CommandToken(token, pos, s.(state := Current()));
        } else {
          s' := s'.(state := Current());
        }
      }
    }

    /**
     * `parse(buffer)`: the result and the new state are the ones the
     * specification gives for this line, whatever an earlier parse left
     * in the program, the error text and the program number.
     */
    method Parse(buffer: string) returns (r: Result)
      modifies this, live
      ensures live.Valid()
      ensures Parsed(r, Current()) == ParseSpec(errCap, old(distance), buffer)
    {
      live.Clear();
      err := [];
      programNumber := NO_PROGRAM;
      var separator := new CharSeparator.Explicit(DELIMITERS, [], DropEmptyTokens);
      var spans := separator.AllTokens(buffer);
      assert spans == LineTokens(buffer);
      var s := Scan(Current(), More, ProgramParsed);
      ghost var init := s;
      var i := 0;
      while i < |spans|
        invariant i <= |spans| && live.Valid() && s.state == Current()
        invariant RunSpec(s, errCap, buffer, spans, i) == RunSpec(init, errCap, buffer, spans, 0)
      {
        var token := buffer[spans[i].start..spans[i].end];
        if s.expects == NoMore {
          err := Clip("Unexpected extra arg(s): '" + token + "'", errCap);
          distance := ToU8(spans[i].start);
          s := s.(state := Current());
        }
        if err != [] {
          assert s == RunSpec(init, errCap, buffer, spans, 0);
          break;
        }
        s := Step(token, spans[i].start, s);
        i := i + 1;
      }
      assert s == RunSpec(init, errCap, buffer, spans, 0);
      var p := Finish(s);
      r := p.result;
    }

    /** The checks after the last token. */
    method Finish(s: Scan) returns (p: Parsed)
      requires s.state == Current()
      modifies this`err
      ensures p == FinishSpec(s, errCap) && p.state == Current()
    {
      var result := s.result;
      if err != [] {
        result := Error;
      } else if result == ProgramParsed {
        if live.items == [] {
          result := Nothing;
        } else if |live.items| == 1 && live.items[0].kind == Delay {
          if programNumber == NO_PROGRAM {
            err := Clip("A delay must be followed by 'open' or 'close'", errCap);
          } else {
            result := Run;
          }
        }
      }
      p := Parsed(result, Current());
    }
  }
}
