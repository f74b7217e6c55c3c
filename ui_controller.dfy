/**
 * The front-panel controller: the state machines driven by the keypad and
 * by system events. The walkman machine chooses between play, pause and
 * stop from the state of the active program; the manual setup machine
 * edits the four fields of the manual program within their bounds; the
 * top machine moves from the splash screen to manual mode and in and out
 * of USB mode. `process_event` delivers an event and then keeps delivering
 * `next` while an action asks for it.
 */
module UiController {
  import opened Base
  import opened UiModel

  datatype Event = Up | Down | Push | UsbOn | UsbOff | SplashTimeout | PgmStopped | Next

  /** `program_state_t` of the program manager. */
  datatype ProgramState = Stopped | Paused | Running

  /** What an action does outside the machine: loading the selected program, or a message to the sequencer. */
  datatype Effect = LoadCommand | StartProgram(fromStart: bool) | StopProgram

  // ---------------------------------------------------------------------
  // walkman
  // ---------------------------------------------------------------------

  datatype WalkmanState = Select | DoPlay | DoPause | DoPlayOrStop | DoStop

  datatype WalkmanOutcome = WalkmanOutcome(state: WalkmanState, program: ProgramState, effects: seq<Effect>)

  /**
   * One transition of the walkman table, the first in table order whose
   * event and guard match; an event no row takes changes nothing here.
   * Only a push acts, and `select` is left by the first `next` and never
   * entered again.
   */
  function WalkmanStep(s: WalkmanState, program: ProgramState, e: Event): (r: WalkmanOutcome)
    ensures e != Push ==> r.program == program && r.effects == []
    ensures r.state == Select <==> s == Select && e != Next
  {
    match s
    case Select =>
      if e != Next then WalkmanOutcome(s, program, [])
      else if program == Running then WalkmanOutcome(DoPause, program, [])
      else if program == Stopped then WalkmanOutcome(DoPlay, program, [])
      else WalkmanOutcome(DoPlayOrStop, program, [])
    case DoPlay =>
      if e == Push then WalkmanOutcome(DoPause, Running, [LoadCommand, StartProgram(true)])
      else WalkmanOutcome(s, program, [])
    case DoPause =>
      if e == Push then WalkmanOutcome(DoPlayOrStop, Paused, [StopProgram])
      else if e == PgmStopped then WalkmanOutcome(DoPlay, program, [])
      else WalkmanOutcome(s, program, [])
    case DoPlayOrStop =>
      if e == Push then WalkmanOutcome(DoPause, Running, [StartProgram(false)])
      else if e == Down then WalkmanOutcome(DoStop, program, [])
      else WalkmanOutcome(s, program, [])
    case DoStop =>
      if e == Push then WalkmanOutcome(DoPlay, Stopped, [StopProgram])
      else if e == Up then WalkmanOutcome(DoPlayOrStop, program, [])
      else WalkmanOutcome(s, program, [])
  }

  /** From `select`, `next` goes to pause while running, to play when stopped, and to play-or-stop otherwise. */
  lemma SelectRoutes(program: ProgramState)
    ensures WalkmanStep(Select, program, Next).state
         == (if program == Running then DoPause else if program == Stopped then DoPlay else DoPlayOrStop)
    ensures WalkmanStep(Select, program, Next).program == program
  {
  }

  /** A push starts the program from play and from play-or-stop, pauses it from pause, and stops it from stop. */
  lemma PushSetsProgramState(s: WalkmanState, program: ProgramState)
    ensures s == DoPlay || s == DoPlayOrStop ==> WalkmanStep(s, program, Push).program == Running
    ensures s == DoPause ==> WalkmanStep(s, program, Push).program == Paused
    ensures s == DoStop ==> WalkmanStep(s, program, Push).program == Stopped
    ensures s == Select ==> WalkmanStep(s, program, Push).program == program
  {
  }

  /**
   * What the screen offers agrees with the program: pause only while it
   * runs, play-or-stop and stop only while it is paused. Every transition
   * keeps this, as long as the program state changes only through the
   * machine.
   */
  predicate Agrees(s: WalkmanState, program: ProgramState)
  {
    match s
    case DoPause => program == Running
    case DoPlayOrStop => program == Paused
    case DoStop => program == Paused
    case _ => true
  }

  lemma WalkmanKeepsAgreement(s: WalkmanState, program: ProgramState, e: Event)
    requires Agrees(s, program)
    ensures Agrees(WalkmanStep(s, program, e).state, WalkmanStep(s, program, e).program)
  {
  }

  /** Play, pause, play again: the program is started afresh, paused, and resumed. */
  lemma PlayPauseResume(program: ProgramState)
    ensures WalkmanStep(DoPlay, program, Push) == WalkmanOutcome(DoPause, Running, [LoadCommand, StartProgram(true)])
    ensures WalkmanStep(DoPause, Running, Push) == WalkmanOutcome(DoPlayOrStop, Paused, [StopProgram])
    ensures WalkmanStep(DoPlayOrStop, Paused, Push) == WalkmanOutcome(DoPause, Running, [StartProgram(false)])
  {
  }

  /** The walkman machine with the `process_event` pump around it. */
  class WalkmanController {
    var state: WalkmanState
    /** The program manager's `state`. */
    var program: ProgramState
    /** `controller_process_next` */
    var processNext: bool
    /** What the actions did, in order. */
    var effects: seq<Effect>

    /** Starting the machine enters `select`, whose entry action asks for `next`. */
    constructor(program: ProgramState)
      ensures state == Select && this.program == program && processNext && effects == []
    {
      state := Select;
      this.program := program;
      processNext := true;
      effects := [];
    }

    /** `sm.process_event(e)`: one transition. */
    method Deliver(e: Event)
      modifies this
      ensures var r := WalkmanStep(old(state), old(program), e);
        state == r.state && program == r.program && effects == old(effects) + r.effects
      ensures processNext == old(processNext)
    {
      var r := WalkmanStep(state, program, e);
      state := r.state;
      program := r.program;
      effects := effects + r.effects;
    }

    /**
     * `process_event(sm, e)`: the event, then `next` for as long as the
     * flag is set, clearing it before each. No transition sets the flag
     * again, so at most one `next` follows.
     */
    method ProcessEvent(e: Event)
      modifies this
      ensures !processNext
      ensures var r := WalkmanStep(old(state), old(program), e);
        var n := WalkmanStep(r.state, r.program, Next);
        if old(processNext)
        then state == n.state && program == n.program && effects == old(effects) + r.effects + n.effects
        else state == r.state && program == r.program && effects == old(effects) + r.effects
    {
      Deliver(e);
      ghost var afterEvent := (state, program, effects);
      ghost var pumped := false;
      while processNext
        invariant pumped ==> !processNext && old(processNext)
        invariant !pumped ==> processNext == old(processNext) && (state, program, effects) == afterEvent
        invariant pumped ==> var n := WalkmanStep(afterEvent.0, afterEvent.1, Next);
          state == n.state && program == n.program && effects == afterEvent.2 + n.effects
        decreases if processNext then 1 else 0
      {
        processNext := false;
        Deliver(Next);
        pumped := true;
      }
    }
  }

  /** The first event after start is delivered, then `next` places the walkman by the program's state. */
  lemma FirstEventRoutes(program: ProgramState, e: Event)
    requires e != Next
    ensures WalkmanStep(WalkmanStep(Select, program, e).state, WalkmanStep(Select, program, e).program, Next).state
         == (if program == Running then DoPause else if program == Stopped then DoPlay else DoPlayOrStop)
  {
  }

  // ---------------------------------------------------------------------
  // program_setup
  // ---------------------------------------------------------------------

  /** The field being edited, and `X` once the last one is pushed. */
  datatype SetupState = SetupOnMin | SetupOnSec | SetupOffMin | SetupOffSec | SetupDone

  /** `on_min`, `on_sec`, `off_min`, `off_sec` of the model. */
  datatype Values = Values(onMin: u8, onSec: u8, offMin: u8, offSec: u8)

  datatype SetupOutcome = SetupOutcome(state: SetupState, values: Values, next: bool)

  /** The top guard of each field: on minutes 99, on seconds 59, off minutes 59, off seconds 99. */
  const ON_MIN_TOP: u8 := 99
  const ON_SEC_TOP: u8 := 59
  const OFF_MIN_TOP: u8 := 59
  const OFF_SEC_TOP: u8 := 99

  predicate InBounds(v: Values)
  {
    v.onMin <= ON_MIN_TOP && v.onSec <= ON_SEC_TOP && v.offMin <= OFF_MIN_TOP && v.offSec <= OFF_SEC_TOP
  }

  /** `up`: nothing at the top, otherwise `++` on a `uint8_t` (which wraps from 255 above an unreachable top). */
  function Increment(x: u8, top: u8): (r: u8)
    ensures x == top ==> r == x
    ensures x < top ==> r as int == x as int + 1
    ensures x <= top ==> r <= top
  {
    if x == top then x else ToU8(x as int + 1)
  }

  /** `down`: nothing at 0, otherwise `--`. */
  function Decrement(x: u8): (r: u8)
    ensures x == 0 ==> r == 0
    ensures x > 0 ==> r as int == x as int - 1
  {
    if x == 0 then x else x - 1
  }

  /**
   * One transition of the setup table: up and down change the field being
   * edited within its bounds, push moves to the next field, and the last
   * push asks for `next` and ends the machine.
   */
  function SetupStep(s: SetupState, v: Values, e: Event): (r: SetupOutcome)
    ensures InBounds(v) ==> InBounds(r.values)
    ensures r.next <==> s == SetupOffSec && e == Push
    ensures e != Up && e != Down ==> r.values == v
    ensures s != SetupOnMin ==> r.values.onMin == v.onMin
    ensures s != SetupOnSec ==> r.values.onSec == v.onSec
    ensures s != SetupOffMin ==> r.values.offMin == v.offMin
    ensures s != SetupOffSec ==> r.values.offSec == v.offSec
    ensures e != Push ==> r.state == s
  {
    match s
    case SetupOnMin =>
      if e == Up then SetupOutcome(s, v.(onMin := Increment(v.onMin, ON_MIN_TOP)), false)
      else if e == Down then SetupOutcome(s, v.(onMin := Decrement(v.onMin)), false)
      else if e == Push then SetupOutcome(SetupOnSec, v, false)
      else SetupOutcome(s, v, false)
    case SetupOnSec =>
      if e == Up then SetupOutcome(s, v.(onSec := Increment(v.onSec, ON_SEC_TOP)), false)
      else if e == Down then SetupOutcome(s, v.(onSec := Decrement(v.onSec)), false)
      else if e == Push then SetupOutcome(SetupOffMin, v, false)
      else SetupOutcome(s, v, false)
    case SetupOffMin =>
      if e == Up then SetupOutcome(s, v.(offMin := Increment(v.offMin, OFF_MIN_TOP)), false)
      else if e == Down then SetupOutcome(s, v.(offMin := Decrement(v.offMin)), false)
      else if e == Push then SetupOutcome(SetupOffSec, v, false)
      else SetupOutcome(s, v, false)
    case SetupOffSec =>
      if e == Up then SetupOutcome(s, v.(offSec := Increment(v.offSec, OFF_SEC_TOP)), false)
      else if e == Down then SetupOutcome(s, v.(offSec := Decrement(v.offSec)), false)
      else if e == Push then SetupOutcome(SetupDone, v, true)
      else SetupOutcome(s, v, false)
    case SetupDone =>
      SetupOutcome(s, v, false)
  }

  /** The field a setup state edits. */
  function Field(s: SetupState, v: Values): (x: u8)
    requires s != SetupDone
  {
    match s
    case SetupOnMin => v.onMin
    case SetupOnSec => v.onSec
    case SetupOffMin => v.offMin
    case SetupOffSec => v.offSec
  }

  function Top(s: SetupState): (top: u8)
    requires s != SetupDone
  {
    match s
    case SetupOnMin => ON_MIN_TOP
    case SetupOnSec => ON_SEC_TOP
    case SetupOffMin => OFF_MIN_TOP
    case SetupOffSec => OFF_SEC_TOP
  }

  /** Up at the top and down at 0 change nothing; below the top, down undoes up. */
  lemma SetupUpDown(s: SetupState, v: Values)
    requires s != SetupDone
    ensures Field(s, v) == Top(s) ==> SetupStep(s, v, Up) == SetupOutcome(s, v, false)
    ensures Field(s, v) == 0 ==> SetupStep(s, v, Down) == SetupOutcome(s, v, false)
    ensures Field(s, v) < Top(s) ==> SetupStep(s, SetupStep(s, v, Up).values, Down).values == v
    ensures Field(s, v) < Top(s) ==> Field(s, SetupStep(s, v, Up).values) as int == Field(s, v) as int + 1
  {
  }

  /** The setup state after each event of `events` in turn. */
  function SetupRun(s: SetupState, v: Values, events: seq<Event>): (r: SetupOutcome)
    ensures InBounds(v) ==> InBounds(r.values)
    decreases |events|
  {
    if events == [] then SetupOutcome(s, v, false)
    else
      var o := SetupStep(s, v, events[0]);
      if events[1..] == [] then o else SetupRun(o.state, o.values, events[1..])
  }

  /**
   * Four pushes walk on minutes, on seconds, off minutes, off seconds and
   * out, the last asking for `next`, with the values untouched.
   */
  lemma PushCycle(v: Values)
    ensures SetupRun(SetupOnMin, v, [Push, Push, Push, Push]) == SetupOutcome(SetupDone, v, true)
  {
    assert [Push, Push, Push, Push][1..] == [Push, Push, Push];
    assert [Push, Push, Push][1..] == [Push, Push];
    assert [Push, Push][1..] == [Push];
  }

  /** Once ended, the machine takes no more events. */
  lemma {:induction false} SetupDoneStays(v: Values, events: seq<Event>)
    ensures SetupRun(SetupDone, v, events).state == SetupDone
    ensures SetupRun(SetupDone, v, events).values == v
    decreases |events|
  {
    if events != [] && events[1..] != [] {
      SetupDoneStays(v, events[1..]);
    }
  }

  /** `program_setup` acting on the model's fields. */
  class SetupController {
    const model: UIModel
    var state: SetupState

    constructor(model: UIModel)
      ensures this.model == model && state == SetupOnMin
    {
      this.model := model;
      state := SetupOnMin;
    }

    function Current(): (v: Values)
      reads model
    {
      Values(model.onMin, model.onSec, model.offMin, model.offSec)
    }

    /** One event: the machine and the four fields move as the table says; `next` is the flag it sets. */
    method Process(e: Event) returns (next: bool)
      modifies this, model`onMin, model`onSec, model`offMin, model`offSec
      ensures var r := SetupStep(old(state), old(Current()), e);
        state == r.state && Current() == r.values && next == r.next
    {
      var r := SetupStep(state, Current(), e);
      state := r.state;
      model.onMin := r.values.onMin;
      model.onSec := r.values.onSec;
      model.offMin := r.values.offMin;
      model.offSec := r.values.offSec;
      next := r.next;
    }
  }

  // ---------------------------------------------------------------------
  // sm_cyclo
  // ---------------------------------------------------------------------

  datatype CycloState = Splash | ModeManual | ModeUsb

  /** The top table: the splash screen ends on its timeout, and USB on and off move between manual and USB mode. */
  function CycloStep(s: CycloState, e: Event): (r: CycloState)
    ensures r == Splash <==> s == Splash && e != SplashTimeout
    ensures r == ModeUsb <==> (s == ModeManual && e == UsbOn) || (s == ModeUsb && e != UsbOff)
  {
    match s
    case Splash => if e == SplashTimeout then ModeManual else s
    case ModeManual => if e == UsbOn then ModeUsb else s
    case ModeUsb => if e == UsbOff then ModeManual else s
  }

  /** USB on then off brings manual mode back, and the splash screen is never shown again once left. */
  lemma UsbRoundTrip(e: Event)
    ensures CycloStep(CycloStep(ModeManual, UsbOn), UsbOff) == ModeManual
    ensures CycloStep(ModeManual, e) != Splash && CycloStep(ModeUsb, e) != Splash
  {
  }
}
