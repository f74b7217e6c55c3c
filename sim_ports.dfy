/**
 * The host simulation of the I/O ports: eight 8-bit ports, a pin being
 * `port << 8 | bit`, and the table of keypad handlers the simulated
 * keypad calls.
 */
module SimPorts {
  import opened Base
  import opened Keypad

  const PORTS: nat := 8

  /** A pin whose port is one of the eight: the source indexes the port array with it unchecked. */
  predicate ValidPin(pin: nat)
  {
    pin < TWO_POW_16 && pin / 256 < PORTS
  }

  function PortOf(pin: nat): nat
  {
    pin / 256
  }

  /** Only the low three bits select the bit within the port. */
  function BitOf(pin: nat): nat
  {
    pin % 8
  }

  /** `1 << bit` */
  function BitMask(bit: nat): bv8
    requires bit < 8
  {
    [0x01, 0x02, 0x04, 0x08, 0x10, 0x20, 0x40, 0x80][bit]
  }

  /** Two different bits' masks share no bit. */
  lemma MasksApart(i: nat, j: nat)
    requires i < 8 && j < 8 && i != j
    ensures BitMask(i) & BitMask(j) == 0
  {
  }

  /** Whether bit `bit` of `b` is set. */
  predicate BitSet(b: bv8, bit: nat)
    requires bit < 8
  {
    b & BitMask(bit) != 0
  }

  /** `b | (1 << bit)` */
  function SetBit(b: bv8, bit: nat): bv8
    requires bit < 8
  {
    b | BitMask(bit)
  }

  /** `b & ~(1 << bit)` */
  function ClearBit(b: bv8, bit: nat): bv8
    requires bit < 8
  {
    b & !BitMask(bit)
  }

  /** `b ^ (1 << bit)` */
  function Toggled(b: bv8, bit: nat): bv8
    requires bit < 8
  {
    b ^ BitMask(bit)
  }

  /** The port `ioport_set_pin_level` leaves: the bit set or cleared as `level` says. */
  function WithBit(b: bv8, bit: nat, level: bool): bv8
    requires bit < 8
  {
    if level then SetBit(b, bit) else ClearBit(b, bit)
  }

  /** Setting a bit sets it and keeps every other bit. */
  lemma SetBitBits(b: bv8, bit: nat, j: nat)
    requires bit < 8 && j < 8
    ensures BitSet(SetBit(b, bit), j) == (j == bit || BitSet(b, j))
  {
    var m, k := BitMask(bit), BitMask(j);
    if j != bit {
      MasksApart(bit, j);
      assert (b | m) & k == b & k;
    }
  }

  /** Clearing a bit clears it and keeps every other bit. */
  lemma ClearBitBits(b: bv8, bit: nat, j: nat)
    requires bit < 8 && j < 8
    ensures BitSet(ClearBit(b, bit), j) == (j != bit && BitSet(b, j))
  {
    var m, k := BitMask(bit), BitMask(j);
    if j != bit {
      MasksApart(bit, j);
      assert (b & !m) & k == b & k;
    }
  }

  /** Toggling a bit flips it and keeps every other bit. */
  lemma ToggledBits(b: bv8, bit: nat, j: nat)
    requires bit < 8 && j < 8
    ensures BitSet(Toggled(b, bit), j) == (if j == bit then !BitSet(b, j) else BitSet(b, j))
  {
    var m, k := BitMask(bit), BitMask(j);
    if j != bit {
      MasksApart(bit, j);
      assert (b ^ m) & k == b & k;
    }
  }

  /** After `ioport_set_pin_level`, the pin's bit is the level and every other bit is kept. */
  lemma WithBitBits(b: bv8, bit: nat, level: bool, j: nat)
    requires bit < 8 && j < 8
    ensures BitSet(WithBit(b, bit, level), j) == (if j == bit then level else BitSet(b, j))
  {
    if level {
      SetBitBits(b, bit, j);
    } else {
      ClearBitBits(b, bit, j);
    }
  }

  /** Toggling a bit twice gives the port back. */
  lemma ToggleTwice(b: bv8, bit: nat)
    requires bit < 8
    ensures Toggled(Toggled(b, bit), bit) == b
  {
  }

  class Ports {
    /** `ports` */
    const ports: array<bv8>

    predicate Valid()
    {
      ports.Length == PORTS
    }

    /** All ports start at zero. */
    constructor()
      ensures Valid() && fresh(ports) && forall p :: 0 <= p < PORTS ==> ports[p] == 0
    {
      ports := new bv8[PORTS](_ => 0);
    }

    /** `ioport_get_pin_level(pin)`: the pin's bit, nothing changed. */
    method GetPinLevel(pin: nat) returns (level: bool)
      requires Valid() && ValidPin(pin)
      ensures level == BitSet(ports[PortOf(pin)], BitOf(pin))
    {
      level := ports[PortOf(pin)] & BitMask(BitOf(pin)) != 0;
    }

    /** `ioport_set_pin_level(pin, level)`: the pin's bit takes the level, every other bit is kept. */
    method SetPinLevel(pin: nat, level: bool)
      requires Valid() && ValidPin(pin)
      modifies ports
      ensures ports[..] == old(ports[..])[PortOf(pin) := WithBit(old(ports[PortOf(pin)]), BitOf(pin), level)]
    {
      var port, bit := PortOf(pin), BitOf(pin);
      if level {
        ports[port] := SetBit(ports[port], bit);
      } else {
        ports[port] := ClearBit(ports[port], bit);
      }
    }

    /** `ioport_toggle_pin_level(pin)`: only the pin's bit flips. */
    method TogglePinLevel(pin: nat)
      requires Valid() && ValidPin(pin)
      modifies ports
      ensures ports[..] == old(ports[..])[PortOf(pin) := Toggled(old(ports[PortOf(pin)]), BitOf(pin))]
    {
      var port := PortOf(pin);
      ports[port] := Toggled(ports[port], BitOf(pin));
    }
  }

  /** The simulated keypad's table: up, down and select, each with its code and no handler. */
  class SimKeypad {
    const keys: array<Registration>

    predicate Valid()
    {
      keys.Length == KEYS
    }

    constructor()
      ensures Valid() && fresh(keys)
      ensures keys[..] == [Registration(KEY_UP, None, 0), Registration(KEY_DOWN, None, 0), Registration(KEY_SELECT, None, 0)]
    {
      var a := new Registration[KEYS](_ => Registration(0, None, 0));
      a[0] := Registration(KEY_UP, None, 0);
      a[1] := Registration(KEY_DOWN, None, 0);
      a[2] := Registration(KEY_SELECT, None, 0);
      keys := a;
    }

    /** `keypad_register_callback(keyMasks, handler, param)`, as evidently intended. */
    method RegisterCallback(keyMasks: bv8, handler: nat, param: nat)
      requires Valid()
      modifies keys
      ensures forall i :: 0 <= i < KEYS ==> keys[i] == Register(old(keys[i]), keyMasks, handler, param)
    {
      var i := 0;
      while i < KEYS
        invariant 0 <= i <= KEYS
        invariant forall j :: 0 <= j < i ==> keys[j] == Register(old(keys[j]), keyMasks, handler, param)
        invariant forall j :: i <= j < KEYS ==> keys[j] == old(keys[j])
      {
        keys[i] := Register(keys[i], keyMasks, handler, param);
        i := i + 1;
      }
    }
  }
}
