/**
 * The message queue of the threaded Linux logger: a circular buffer of
 * `_LOG_MAX_MQUEUE_DEPTH` messages between the callers that log and the
 * thread that writes to syslog or to a file. Only its sequential part is
 * modelled: the mutex and the condition variable are left out, and the
 * thread's output is the sequence of messages handed to it.
 */
module LogQueue {
  import opened Base

  /** `_LOG_MAX_MQUEUE_DEPTH` (the full-size logger configuration). */
  const DEPTH: nat := 250
  /** `_LOG_MAX_TRACE`: a message keeps at most this many characters. */
  const MAX_TRACE: nat := 1024
  /** The `char buffer[50]` the drop warning is printed into, NUL included. */
  const WARNING_BUFFER: nat := 50
  /** `LOG_ERR` of syslog.h, the priority of the drop warning. */
  const LOG_ERR: int := 3

  const WARNING_HEAD: string := "##### Dropped logs: "
  const WARNING_TAIL: string := " #####"

  /** `logMessageOutput_t` */
  datatype Output = Syslog | File | Dummy

  /** The output's parameter: a syslog priority, a stream (by identity), or nothing. */
  datatype Param = Priority(priority: int) | Stream(stream: nat) | NoParam

  /** `_logMessage_t`: its output, the parameter the output reads, and its text. */
  datatype Message = Message(output: Output, param: Param, text: string)

  /** The parameter an output needs is there, as the source asserts. */
  predicate Fits(output: Output, param: Param)
  {
    (output == Syslog ==> param.Priority?) && (output == File ==> param.Stream?)
  }

  /** The characters a message buffer keeps of `msg`: its C text, cut to `MAX_TRACE`. */
  function Stored(msg: string): (r: string)
    ensures |r| <= MAX_TRACE && '\0' !in r
    ensures r <= msg
    ensures '\0' !in msg && |msg| <= MAX_TRACE ==> r == msg
  {
    var t := CText(msg);
    assert '\0' !in msg ==> t == msg by {
      if '\0' !in msg {
        CTextOfPlain(msg);
      }
    }
    Clip(t, MAX_TRACE)
  }

  /** The message `_log_mqueue_push` builds: a dummy output copies no parameter. */
  function Entry(output: Output, param: Param, msg: string): (r: Message)
    ensures r.output == output && r.text == Stored(msg)
    ensures output != Dummy ==> r.param == param
  {
    Message(output, if output == Dummy then NoParam else param, Stored(msg))
  }

  /** The slot after `slot`, back to the first after the last. */
  function Advance(slot: nat): (r: nat)
    requires slot < DEPTH
    ensures r < DEPTH
    ensures r == (slot + 1) % DEPTH
  {
    if slot < DEPTH - 1 then slot + 1 else 0
  }

  /** The slot `i` places after `start`, around the ring. */
  function Slot(start: nat, i: nat): (r: nat)
    requires start < DEPTH && i < DEPTH
    ensures r < DEPTH
    ensures r == (start + i) % DEPTH
  {
    if start + i < DEPTH then start + i else start + i - DEPTH
  }

  /** The `n` messages held from slot `start` on, oldest first. */
  function Window(slots: seq<Message>, start: nat, n: nat): (r: seq<Message>)
    requires |slots| == DEPTH && start < DEPTH && n <= DEPTH
    ensures |r| == n
    ensures forall i :: 0 <= i < n ==> r[i] == slots[Slot(start, i)]
  {
    seq(n, i requires 0 <= i < n => slots[Slot(start, i)])
  }

  /** Storing at the slot after the window's last one appends to the window. */
  lemma WindowPush(slots: seq<Message>, start: nat, n: nat, m: Message)
    requires |slots| == DEPTH && start < DEPTH && n < DEPTH
    ensures Window(slots[Slot(start, n) := m], start, n + 1) == Window(slots, start, n) + [m]
  {
    var w := Window(slots[Slot(start, n) := m], start, n + 1);
    forall i | 0 <= i < n
      ensures w[i] == Window(slots, start, n)[i]
    {
      assert Slot(start, i) != Slot(start, n);
    }
  }

  /** Moving the start one slot on drops the window's first message. */
  lemma WindowPop(slots: seq<Message>, start: nat, n: nat)
    requires |slots| == DEPTH && start < DEPTH && 0 < n <= DEPTH
    ensures Window(slots, Advance(start), n - 1) == Window(slots, start, n)[1..]
  {
    var w := Window(slots, Advance(start), n - 1);
    forall i | 0 <= i < n - 1
      ensures w[i] == Window(slots, start, n)[1..][i]
    {
      assert Slot(Advance(start), i) == Slot(start, i + 1);
    }
  }

  /** `_logMqueue_t` */
  class MessageQueue {
    /** `messages` */
    const messages: array<Message>
    /** `oldest_msg_ptr`, as a slot index. */
    var oldest: nat
    /** `next_msg_ptr`, as a slot index. */
    var next: nat
    /** `nb_of_msgs` */
    var count: nat

    predicate Valid()
      reads this
    {
      messages.Length == DEPTH && oldest < DEPTH && count <= DEPTH
      && next == (if count == DEPTH then oldest else Slot(oldest, count))
    }

    /** The queued messages, oldest first. */
    function Contents(): (r: seq<Message>)
      requires Valid()
      reads this, messages
      ensures |r| == count
    {
      Window(messages[..], oldest, count)
    }

    /** `_log_mqueue_init`: zeroed messages (syslog output, empty text), both slots at the start. */
    constructor()
      ensures Valid() && fresh(messages)
      ensures oldest == 0 && next == 0 && Contents() == []
      ensures forall k :: 0 <= k < DEPTH ==> messages[k] == Message(Syslog, Priority(0), "")
    {
      messages := new Message[DEPTH](_ => Message(Syslog, Priority(0), ""));
      oldest := 0;
      next := 0;
      count := 0;
    }

    /**
     * `_log_mqueue_push(output, msgStr, param)`: -1 and nothing changed when
     * the queue is full; otherwise 0, the message appended at `next`, and
     * `next` one slot on.
     */
    method Push(output: Output, param: Param, msg: string) returns (ret: int)
      requires Valid() && Fits(output, param)
      modifies this, messages
      ensures Valid() && oldest == old(oldest)
      ensures old(count) == DEPTH ==>
        ret == -1 && count == old(count) && next == old(next) && messages[..] == old(messages[..])
      ensures old(count) < DEPTH ==>
        ret == 0 && count == old(count) + 1 && next == Advance(old(next))
        && Contents() == old(Contents()) + [Entry(output, param, msg)]
    {
      if count == DEPTH {
        ret := -1;
      } else {
        ghost var before := messages[..];
        messages[next] := Entry(output, param, msg);
        assert messages[..] == before[Slot(oldest, count) := Entry(output, param, msg)];
        WindowPush(before, oldest, count, Entry(output, param, msg));
        next := Advance(next);
        count := count + 1;
        ret := 0;
      }
    }

    /**
     * `_log_mqueue_pop(msgPtr)`: nothing (NULL) from an empty queue;
     * otherwise the oldest message, removed, and `oldest` one slot on.
     */
    method Pop() returns (m: Option<Message>)
      requires Valid()
      modifies this
      ensures Valid() && next == old(next)
      ensures old(count) == 0 ==> m == None && count == 0 && oldest == old(oldest)
      ensures old(count) > 0 ==>
        m == Some(old(Contents())[0]) && count == old(count) - 1 && oldest == Advance(old(oldest))
        && Contents() == old(Contents())[1..]
    {
      if count != 0 {
        m := Some(messages[oldest]);
        WindowPop(messages[..], oldest, count);
        oldest := Advance(oldest);
        count := count - 1;
      } else {
        m := None;
      }
    }

    /**
     * `_log_mqueue_flush(logAllMsg)`: pops until the queue is empty, and
     * hands every message in order to the output when `logAll` is set.
     */
    method Flush(logAll: bool) returns (logged: seq<Message>)
      requires Valid()
      modifies this
      ensures Valid() && Contents() == []
      ensures logged == if logAll then old(Contents()) else []
    {
      logged := [];
      ghost var all := Contents();
      while count != 0
        invariant Valid()
        invariant logAll ==> logged + Contents() == all
        invariant !logAll ==> logged == []
        decreases count
      {
        ghost var before := Contents();
        var m := Pop();
        ghost var rest := Contents();
        PopSplits(before, m, rest);
        if logAll {
          LoggedStep(logged, m.value, rest, all);
          logged := logged + [m.value];
        }
      }
    }
  }

  /** What a pop from a queue holding `before` gives: its head, and its tail left behind. */
  lemma PopSplits(before: seq<Message>, m: Option<Message>, rest: seq<Message>)
    requires |before| > 0 && m == Some(before[0]) && rest == before[1..]
    ensures before == [m.value] + rest
  {
  }

  /** Moving the head of what is left to the end of what was logged keeps their concatenation. */
  lemma LoggedStep<T>(logged: seq<T>, x: T, rest: seq<T>, all: seq<T>)
    requires logged + ([x] + rest) == all
    ensures (logged + [x]) + rest == all
  {
    assert (logged + [x]) + rest == logged + ([x] + rest);
  }

  /** The drop warning as printed into its 50-byte buffer. */
  function Warning(dropped: nat): (r: string)
    ensures |r| < WARNING_BUFFER && WARNING_HEAD <= r
    ensures |Decimal(dropped)| <= 23 ==> r == WARNING_HEAD + Decimal(dropped) + WARNING_TAIL
  {
    Clip(WARNING_HEAD + Decimal(dropped) + WARNING_TAIL, WARNING_BUFFER - 1)
  }

  /** The count printed in a warning reads back as the count. */
  lemma WarningCount(dropped: nat)
    requires |Decimal(dropped)| <= 23
    ensures AllDigits(Warning(dropped)[|WARNING_HEAD|..|Warning(dropped)| - |WARNING_TAIL|])
    ensures DigitsValue(Warning(dropped)[|WARNING_HEAD|..|Warning(dropped)| - |WARNING_TAIL|]) == dropped
  {
    var w := Warning(dropped);
    assert w[|WARNING_HEAD|..|w| - |WARNING_TAIL|] == Decimal(dropped);
    DigitsValueDecimal(dropped);
  }

  /** The parameter of the drop warning: error priority on syslog, the same stream for a file. */
  function WarningParam(output: Output, param: Param): (r: Param)
    ensures Fits(output, param) ==> Fits(output, r)
    ensures output == Syslog ==> r == Priority(LOG_ERR)
    ensures output == File ==> r == param
  {
    match output
    case Syslog => Priority(LOG_ERR)
    case File => param
    case Dummy => NoParam
  }

  /** The logging side of the threaded logger: the queue and the static drop counter. */
  class QueueLogger {
    const queue: MessageQueue
    /** `nb_dropped_msg` */
    var dropped: nat

    predicate Valid()
      reads this, queue
    {
      queue.Valid()
    }

    constructor()
      ensures Valid() && fresh(queue) && fresh(queue.messages)
      ensures dropped == 0 && queue.Contents() == []
    {
      queue := new MessageQueue();
      dropped := 0;
    }

    /**
     * `_push_log_to_queue(output, msgStr, param)`. With no drops pending, the
     * message is pushed, or counted as dropped. With drops pending, the
     * warning goes first; only when it fits is the counter reset and the
     * message pushed after it (or counted as the one drop). A message that
     * finds the queue full while drops are pending is lost without being
     * counted. 0 means the message itself was queued.
     */
    method PushLogToQueue(output: Output, param: Param, msg: string) returns (ret: int)
      requires Valid() && Fits(output, param)
      modifies this, queue, queue.messages
      ensures Valid()
      ensures old(dropped) == 0 && old(queue.count) < DEPTH ==>
        ret == 0 && dropped == 0 && queue.Contents() == old(queue.Contents()) + [Entry(output, param, msg)]
      ensures old(dropped) == 0 && old(queue.count) == DEPTH ==>
        ret == 1 && dropped == 1 && queue.Contents() == old(queue.Contents())
      ensures old(dropped) > 0 && old(queue.count) + 2 <= DEPTH ==>
        ret == 0 && dropped == 0
        && queue.Contents() == old(queue.Contents())
             + [Entry(output, WarningParam(output, param), Warning(old(dropped))), Entry(output, param, msg)]
      ensures old(dropped) > 0 && old(queue.count) + 1 == DEPTH ==>
        ret == 1 && dropped == 1
        && queue.Contents() == old(queue.Contents()) + [Entry(output, WarningParam(output, param), Warning(old(dropped)))]
      ensures old(dropped) > 0 && old(queue.count) == DEPTH ==>
        ret == 1 && dropped == old(dropped) && queue.Contents() == old(queue.Contents())
    {
      ret := 1;
      if dropped > 0 {
        var warned := queue.Push(output, WarningParam(output, param), Warning(dropped));
        if warned == 0 {
          dropped := 0;
          var pushed := queue.Push(output, param, msg);
          if pushed != 0 {
            dropped := dropped + 1;
          } else {
            ret := 0;
          }
        }
      } else {
        var pushed := queue.Push(output, param, msg);
        if pushed != 0 {
          dropped := dropped + 1;
        } else {
          ret := 0;
        }
      }
    }
  }
}
