/**
 * A parsed program: a bounded list of commands (open the relay, close it,
 * wait, or loop back to the start), each followed by a delay, and an
 * iterator the sequencer uses to fetch one command after the other.
 */
module ProgramModel {
  import opened Base

  /** The most commands a program can hold. */
  const MAX_ITEMS: nat := 12

  type u32 = x: int | 0 <= x < TWO_POW_32

  datatype CommandKind = Open | Close | Delay | Loop

  /** A command and the delay, in milliseconds, to observe after it. */
  datatype Command = Command(kind: CommandKind, delayMs: u32)

  class Program {
    /** The commands, in order (the underlying fixed-capacity vector). */
    var items: seq<Command>
    /** The iterator of `iterate()`, as an index into `items`. */
    var it: nat

    predicate Valid()
      reads this
    {
      |items| <= MAX_ITEMS
    }

    constructor()
      ensures Valid() && items == [] && it == 0
    {
      items := [];
      it := 0;
    }

    /** `start()`: the next `iterate()` returns the first command. */
    method Start()
      modifies this`it
      ensures it == 0
    {
      it := 0;
    }

    /** `iterate()`: the command under the iterator, advancing it; `None` at the end. */
    method Iterate() returns (r: Option<Command>)
      requires it <= |items|
      modifies this`it
      ensures old(it) < |items| ==> r == Some(items[old(it)]) && it == old(it) + 1
      ensures old(it) == |items| ==> r == None && it == old(it)
    {
      r := None;
      if it != |items| {
        r := Some(items[it]);
        it := it + 1;
      }
    }

    /**
     * What a sequencer sees when it restarts the program and calls
     * `iterate()` until it returns `None`: every command, in order.
     */
    method Replay() returns (seen: seq<Command>)
      modifies this`it
      ensures seen == items && it == |items|
    {
      Start();
      seen := [];
      var r := Iterate();
      assert r.Some? ==> [r.value] == items[..1];
      while r.Some?
        invariant it <= |items|
        invariant r.Some? ==> 0 < it && seen + [r.value] == items[..it]
        invariant r.None? ==> it == |items| && seen == items
        decreases |items| - it, r.Some?
      {
        seen := seen + [r.value];
        r := Iterate();
        assert r.Some? ==> items[..it] == items[..it - 1] + [r.value];
      }
    }

    // The vector operations the parser, the manager and the model use.

    method Clear()
      modifies this`items
      ensures items == []
    {
      items := [];
    }

    method PushBack(c: Command)
      requires |items| < MAX_ITEMS
      modifies this`items
      ensures items == old(items) + [c]
    {
      items := items + [c];
    }

    method SetBackDelay(delayMs: u32)
      requires items != []
      modifies this`items
      ensures items == old(items)[|old(items)| - 1 := old(items)[|old(items)| - 1].(delayMs := delayMs)]
    {
      items := items[|items| - 1 := items[|items| - 1].(delayMs := delayMs)];
    }

    method Assign(cs: seq<Command>)
      requires |cs| <= MAX_ITEMS
      modifies this`items
      ensures items == cs
    {
      items := cs;
    }
  }
}
