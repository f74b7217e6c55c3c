/**
 * The keypad driver: three keys sampled at 100 Hz, each debounced by an
 * integrator that must reach the filter count (or fall back to zero)
 * before the key's state changes, and auto-repeated while it is held.
 * Handlers are registered for one or several keys by a mask.
 *
 * A handler is known by a number, and a call to it is recorded as a
 * `Call`; the pin levels a sample reads are a parameter.
 */
module Keypad {
  import opened Base

  /** The number of keys (up, down, select). */
  const KEYS: nat := 3
  /** 40 ms at 100 Hz. */
  const FILTER_CYCLES: nat := 4
  /** 700 ms at 100 Hz. */
  const FIRST_REPEAT_CYCLES: nat := 70
  /** 100 ms more. */
  const NEXT_REPEAT_CYCLE: nat := 80

  /** The key codes: one bit per key. */
  const KEY_UP: bv8 := 1
  const KEY_DOWN: bv8 := 2
  const KEY_SELECT: bv8 := 4

  /** Who handles a key: its mask, the handler (if any) and the handler's parameter. */
  datatype Registration = Registration(mask: bv8, handler: Option<nat>, param: nat)

  /** The state of one key. */
  datatype KeyState = KeyState(pin: nat, integrator: nat, cycle: nat, output: bool, reg: Registration)

  /** A call of a handler with a key code and the registered parameter. */
  datatype Call = Call(handler: nat, key: bv8, param: nat)

  /** The bounds a key's counters keep. */
  predicate Bounded(k: KeyState)
  {
    k.integrator <= FILTER_CYCLES && k.cycle <= NEXT_REPEAT_CYCLE
  }

  /** The integrator after one sample: up while the pin is low (pushed), down while high, within [0, FILTER]. */
  function Integrate(integrator: nat, pinHigh: bool): nat
  {
    if !pinHigh then (if integrator < FILTER_CYCLES then integrator + 1 else integrator)
    else (if integrator > 0 then integrator - 1 else 0)
  }

  /** The key after the integrator has moved: the output turns on when the integrator reaches the filter count and off when it reaches zero. */
  function Debounce(k: KeyState, pinHigh: bool): (r: KeyState)
    ensures r.pin == k.pin && r.reg == k.reg
  {
    var i := Integrate(k.integrator, pinHigh);
    if !pinHigh && k.integrator < FILTER_CYCLES && i == FILTER_CYCLES then k.(integrator := i, output := true, cycle := 0)
    else if pinHigh && k.integrator > 0 && i == 0 then k.(integrator := i, output := false)
    else k.(integrator := i)
  }

  /** The handler is called for a held key at the press and at each repeat point. */
  predicate FiresAt(cycle: nat)
  {
    cycle == 0 || cycle == FIRST_REPEAT_CYCLES || cycle == NEXT_REPEAT_CYCLE
  }

  /** The cycle counter after one sample of a held key: from the second repeat it goes back to the first. */
  function Advance(cycle: nat): nat
  {
    (if cycle == NEXT_REPEAT_CYCLE then FIRST_REPEAT_CYCLES else cycle) + 1
  }

  /** One sample of a key that has a handler: debounce, then count the cycles while the output is on. */
  function Sample(k: KeyState, pinHigh: bool): (r: KeyState)
    ensures r.pin == k.pin && r.reg == k.reg
  {
    var d := Debounce(k, pinHigh);
    if d.output then d.(cycle := Advance(d.cycle)) else d
  }

  /** Whether one sample calls the key's handler. */
  predicate Fires(k: KeyState, pinHigh: bool)
  {
    Debounce(k, pinHigh).output && FiresAt(Debounce(k, pinHigh).cycle)
  }

  /** The state of a key after a sample: a key without a handler is not updated. */
  function Step(k: KeyState, pinHigh: bool): KeyState
  {
    if k.reg.handler.Some? then Sample(k, pinHigh) else k
  }

  /** The calls one sample makes, for the keys before `n`, in key order. */
  function CallsUpTo(keys: seq<KeyState>, pinHigh: seq<bool>, n: nat): seq<Call>
    requires n <= |keys| && |pinHigh| == |keys|
  {
    if n == 0 then []
    else
      var k := keys[n - 1];
      CallsUpTo(keys, pinHigh, n - 1)
      + (if k.reg.handler.Some? && Fires(k, pinHigh[n - 1]) then [Call(k.reg.handler.value, k.reg.mask, k.reg.param)] else [])
  }

  /** `keypad_register_callback` for one key, as evidently intended: a key whose mask is in `keyMasks` gets the handler. */
  function Register(r: Registration, keyMasks: bv8, handler: nat, param: nat): (s: Registration)
    ensures s.mask == r.mask
    ensures r.mask & keyMasks != 0 ==> s.handler == Some(handler) && s.param == param
    ensures r.mask & keyMasks == 0 ==> s == r
  {
    if r.mask & keyMasks != 0 then r.(handler := Some(handler), param := param) else r
  }

  /** `keypad_register_callback` for one key as written: the key's mask is replaced by its intersection with `keyMasks`. */
  function RegisterAsWritten(r: Registration, keyMasks: bv8, handler: nat, param: nat): Registration
  {
    var mask := r.mask & keyMasks;
    if mask != 0 then Registration(mask, Some(handler), param) else r.(mask := mask)
  }

  /** The key codes as `keypad_init` assigns them: key i has bit i. */
  function InitialMask(i: nat): (m: bv8)
    requires i < KEYS
    ensures m == [KEY_UP, KEY_DOWN, KEY_SELECT][i]
  {
    (1 as bv8) << i
  }

  /** Registering a handler for each key in turn, as written: the second registration finds the down key's mask cleared. */
  lemma RegisterAsWrittenLosesKeys(h1: nat, h2: nat, p1: nat, p2: nat)
    ensures var up := RegisterAsWritten(Registration(KEY_UP, None, 0), KEY_UP, h1, p1);
            var down := RegisterAsWritten(Registration(KEY_DOWN, None, 0), KEY_UP, h1, p1);
            RegisterAsWritten(down, KEY_DOWN, h2, p2).handler == None
            && RegisterAsWritten(up, KEY_DOWN, h2, p2).mask == 0
  {
  }

  /** Registering in turn, as intended: each key keeps its code and gets the handler registered for it. */
  lemma RegisterInTurn(r: Registration, m1: bv8, h1: nat, p1: nat, m2: bv8, h2: nat, p2: nat)
    requires m1 & m2 == 0
    ensures var s := Register(Register(r, m1, h1, p1), m2, h2, p2);
            s.mask == r.mask
            && (r.mask & m2 != 0 ==> s.handler == Some(h2))
            && (r.mask & m2 == 0 && r.mask & m1 != 0 ==> s.handler == Some(h1))
  {
  }

  /** A sample keeps a key's counters within their bounds. */
  lemma SampleBounded(k: KeyState, pinHigh: bool)
    requires Bounded(k)
    ensures Bounded(Step(k, pinHigh))
  {
  }

  /** The output turns on exactly when the integrator reaches the filter count, which restarts the cycle count. */
  lemma OutputTurnsOn(k: KeyState, pinHigh: bool)
    requires Bounded(k)
    ensures var d := Debounce(k, pinHigh);
            (d.integrator == FILTER_CYCLES && k.integrator < FILTER_CYCLES <==> !pinHigh && k.integrator == FILTER_CYCLES - 1)
            && (!pinHigh && k.integrator == FILTER_CYCLES - 1 ==> d.output && d.cycle == 0)
            && (pinHigh && k.integrator == 1 ==> !d.output)
            && (0 < d.integrator < FILTER_CYCLES ==> d.output == k.output)
  {
  }

  /** `n` samples of a held key (pin low). */
  function Held(k: KeyState, n: nat): KeyState
    decreases n
  {
    if n == 0 then k else Held(Sample(k, false), n - 1)
  }

  /** How many of `n` samples of a held key call its handler. */
  function HeldCalls(k: KeyState, n: nat): nat
    decreases n
  {
    if n == 0 then 0 else (if Fires(k, false) then 1 else 0) + HeldCalls(Sample(k, false), n - 1)
  }

  /** A released key pushed and held for the filter time turns on and calls its handler once, at the last of those samples. */
  lemma PressFiresOnce(k: KeyState)
    requires k.integrator == 0 && !k.output
    ensures Held(k, FILTER_CYCLES).output && Held(k, FILTER_CYCLES).cycle == 1
    ensures HeldCalls(k, FILTER_CYCLES) == 1
  {
    var k1 := Sample(k, false);
    var k2 := Sample(k1, false);
    var k3 := Sample(k2, false);
    assert !Fires(k, false) && !Fires(k1, false) && !Fires(k2, false) && Fires(k3, false);
    assert Held(k3, 1) == Sample(k3, false);
  }

  /**
   * A key held past its first repeat goes round every ten samples: the
   * handler is called once per round, and the key comes back to the same
   * state.
   */
  lemma {:induction false} RepeatsArePeriodic(k: KeyState)
    requires k.integrator == FILTER_CYCLES && k.output && k.cycle == FIRST_REPEAT_CYCLES + 1
    ensures Held(k, NEXT_REPEAT_CYCLE - FIRST_REPEAT_CYCLES) == k
    ensures HeldCalls(k, NEXT_REPEAT_CYCLE - FIRST_REPEAT_CYCLES) == 1
  {
    HeldCount(k, NEXT_REPEAT_CYCLE - FIRST_REPEAT_CYCLES - 1);
    var j := k.(cycle := NEXT_REPEAT_CYCLE);
    assert Held(j, 1) == k;
  }

  /** Holding the key between repeat points only advances the count, and calls nothing. */
  lemma {:induction false} HeldCount(k: KeyState, n: nat)
    requires k.integrator == FILTER_CYCLES && k.output
    requires FIRST_REPEAT_CYCLES < k.cycle && k.cycle + n <= NEXT_REPEAT_CYCLE
    ensures Held(k, n) == k.(cycle := k.cycle + n)
    ensures HeldCalls(k, n) == 0
    ensures Held(k, n + 1) == Held(k.(cycle := k.cycle + n), 1)
    ensures HeldCalls(k, n + 1) == HeldCalls(k.(cycle := k.cycle + n), 1)
    decreases n
  {
    if n > 0 {
      var s := Sample(k, false);
      assert s == k.(cycle := k.cycle + 1);
      HeldCount(s, n - 1);
    }
  }

  class KeypadDriver {
    /** `keypad_keys_state` */
    const keys: array<KeyState>

    predicate Valid()
      reads keys
    {
      keys.Length == KEYS && forall i :: 0 <= i < KEYS ==> Bounded(keys[i])
    }

    /** `keypad_init`: key i samples pin i and has code 1 << i; no handler, counters at zero. */
    constructor(pins: seq<nat>)
      requires |pins| == KEYS
      ensures Valid() && fresh(keys)
      ensures forall i :: 0 <= i < KEYS ==> keys[i] == KeyState(pins[i], 0, 0, false, Registration(InitialMask(i), None, 0))
    {
      var a := new KeyState[KEYS](_ => KeyState(0, 0, 0, false, Registration(0, None, 0)));
      var i := 0;
      while i < KEYS
        invariant 0 <= i <= KEYS
        invariant forall j :: 0 <= j < i ==> a[j] == KeyState(pins[j], 0, 0, false, Registration(InitialMask(j), None, 0))
      {
        a[i] := KeyState(pins[i], 0, 0, false, Registration(InitialMask(i), None, 0));
        i := i + 1;
      }
      keys := a;
    }

    /** `keypad_process`: one sample of every key, with the handler calls it makes, in key order. */
    method Process(pinHigh: seq<bool>) returns (calls: seq<Call>)
      requires Valid() && |pinHigh| == KEYS
      modifies keys
      ensures Valid()
      ensures forall i :: 0 <= i < KEYS ==> keys[i] == Step(old(keys[i]), pinHigh[i])
      ensures calls == CallsUpTo(old(keys[..]), pinHigh, KEYS)
    {
      ghost var before := keys[..];
      calls := [];
      var i := 0;
      while i < KEYS
        invariant 0 <= i <= KEYS
        invariant forall j :: 0 <= j < i ==> keys[j] == Step(before[j], pinHigh[j])
        invariant forall j :: i <= j < KEYS ==> keys[j] == before[j]
        invariant forall j :: 0 <= j < KEYS ==> Bounded(keys[j])
        invariant calls == CallsUpTo(before, pinHigh, i)
      {
        var key := keys[i];
        if key.reg.handler.Some? {
          var fires := Fires(key, pinHigh[i]);
          if fires {
            calls := calls + [Call(key.reg.handler.value, key.reg.mask, key.reg.param)];
          }
          SampleBounded(key, pinHigh[i]);
          keys[i] := Sample(key, pinHigh[i]);
        }
        i := i + 1;
      }
    }

    /** `keypad_register_callback(keyMasks, handler, param)`, as evidently intended. */
    method RegisterCallback(keyMasks: bv8, handler: nat, param: nat)
      requires Valid()
      modifies keys
      ensures Valid()
      ensures forall i :: 0 <= i < KEYS ==> keys[i] == old(keys[i]).(reg := Register(old(keys[i]).reg, keyMasks, handler, param))
    {
      var i := 0;
      while i < KEYS
        invariant 0 <= i <= KEYS
        invariant forall j :: 0 <= j < i ==> keys[j] == old(keys[j]).(reg := Register(old(keys[j]).reg, keyMasks, handler, param))
        invariant forall j :: i <= j < KEYS ==> keys[j] == old(keys[j])
      {
        keys[i] := keys[i].(reg := Register(keys[i].reg, keyMasks, handler, param));
        i := i + 1;
      }
    }
  }
}
