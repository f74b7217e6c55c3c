/**
 * The four quadrants of the main screen (program, activity, counter,
 * information) the cursor steps through, wrapping round at both ends; the
 * enumeration also has the values `none` before and `stop` after them.
 */
module Quadrant {
  import opened Base

  const NONE: u8 := 0
  const PROG: u8 := 1
  const ACTIVITY: u8 := 2
  const COUNTER: u8 := 3
  const INFO: u8 := 4
  const STOP: u8 := 5

  /** One of the four quadrants. */
  predicate InRange(q: u8)
  {
    PROG <= q <= INFO
  }

  /** `*q`: the quadrant's index from 0, as an 8-bit value. */
  function Index(q: u8): (r: u8)
    ensures InRange(q) ==> r as int == q as int - 1 && r < 4
    ensures q == NONE ==> r == 255
  {
    ToU8(q as int - 1)
  }

  /** The value `q++` leaves: the next quadrant, from the last back to the first. */
  function Next(q: u8): u8
  {
    var n := ToU8(q as int + 1);
    if n == STOP then PROG else n
  }

  /** The value `q--` leaves: the previous quadrant, from the first back to the last. */
  function Prev(q: u8): u8
  {
    var p := ToU8(q as int - 1);
    if p == NONE then INFO else p
  }

  /** Stepping keeps the cursor on a quadrant. */
  lemma {:induction false} StepsStayInRange(q: u8)
    requires InRange(q)
    ensures InRange(Next(q)) && InRange(Prev(q))
    ensures q == INFO ==> Next(q) == PROG
    ensures q == PROG ==> Prev(q) == INFO
    ensures q != INFO ==> Next(q) == q + 1
    ensures q != PROG ==> Prev(q) == q - 1
  {
  }

  /** Stepping back undoes stepping forward, and four steps come back to the start. */
  lemma {:induction false} StepsCycle(q: u8)
    requires InRange(q)
    ensures Prev(Next(q)) == q && Next(Prev(q)) == q
    ensures Next(Next(Next(Next(q)))) == q
  {
    StepsStayInRange(q);
    StepsStayInRange(Next(q));
    StepsStayInRange(Next(Next(q)));
    StepsStayInRange(Next(Next(Next(q))));
    StepsStayInRange(Prev(q));
  }

  /** A variable holding a quadrant. */
  class QuadrantVar {
    var q: u8

    constructor(q: u8)
      ensures this.q == q
    {
      this.q := q;
    }

    /** `q++`: steps forward and returns the value before the step. */
    method PostIncrement() returns (before: u8)
      modifies this
      ensures before == old(q) && q == Next(old(q))
    {
      before := q;
      q := ToU8(q as int + 1);
      if q == STOP {
        q := PROG;
      }
    }

    /** `q--`: steps back and returns the value before the step. */
    method PostDecrement() returns (before: u8)
      modifies this
      ensures before == old(q) && q == Prev(old(q))
    {
      before := q;
      q := ToU8(q as int - 1);
      if q == NONE {
        q := INFO;
      }
    }
  }
}
