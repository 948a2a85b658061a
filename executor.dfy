// The pulse executor: one pulse becomes a fixed run of LED switches and
// blocking delays. The LED pin and the delay provider are modelled by a
// `Board` that records every effect, in order, as an event trace.

module Executor {
  import opened Encoder

  /** The base duration in milliseconds; every delay is a multiple of it. */
  const TIME_UNIT: nat := 75

  /** One observable effect: the LED switched on or off, or a blocking delay of `ms` milliseconds. */
  datatype Event = On | Off | Wait(ms: nat)

  /** Total delay, in milliseconds, of a trace. */
  function Duration(t: seq<Event>): nat {
    if t == [] then 0
    else (if t[0].Wait? then t[0].ms else 0) + Duration(t[1..])
  }

  /** Whether the LED is lit after trace `t`, starting from level `lit`: the last switch wins. */
  function LitAfter(lit: bool, t: seq<Event>): bool {
    if t == [] then lit
    else if t[|t| - 1] == On then true
    else if t[|t| - 1] == Off then false
    else LitAfter(lit, t[..|t| - 1])
  }

  /** The length of each pulse in time units, counting the gap that follows a mark. */
  function Units(p: Pulse): nat {
    match p
    case Short => 2
    case Long => 4
    case LetterPause => 3
    case WordPause => 7
  }

  /** The effects of executing one pulse. */
  function PulseTrace(p: Pulse): seq<Event> {
    match p
    case Short => [On, Wait(TIME_UNIT), Off, Wait(TIME_UNIT)]
    case Long => [On, Wait(TIME_UNIT * 3), Off, Wait(TIME_UNIT)]
    case LetterPause => [Wait(TIME_UNIT * 3)]
    case WordPause => [Wait(TIME_UNIT * 7)]
  }

  lemma {:induction false} DurationAppend(a: seq<Event>, b: seq<Event>)
    ensures Duration(a + b) == Duration(a) + Duration(b)
  {
    if a == [] {
      assert a + b == b;
    } else {
      assert (a + b)[1..] == a[1..] + b;
      DurationAppend(a[1..], b);
    }
  }

  lemma {:induction false} LitAfterAppend(lit: bool, a: seq<Event>, b: seq<Event>)
    ensures LitAfter(lit, a + b) == LitAfter(LitAfter(lit, a), b)
  {
    if b != [] {
      assert (a + b)[..|a + b| - 1] == a + b[..|b| - 1];
      LitAfterAppend(lit, a, b[..|b| - 1]);
    } else {
      assert a + b == a;
    }
  }

  /** Every pulse takes exactly its number of units times TIME_UNIT. */
  lemma PulseDuration(p: Pulse)
    ensures Duration(PulseTrace(p)) == TIME_UNIT * Units(p)
  {
    var t := PulseTrace(p);
    if p.IsMark() {
      assert t[3..][1..] == [] && t[2..][1..] == t[3..] && t[1..][1..] == t[2..];
      assert Duration(t[3..]) == TIME_UNIT;
      assert Duration(t[2..]) == TIME_UNIT;
      assert Duration(t[1..]) == TIME_UNIT * Units(p);
    } else {
      assert t[1..] == [];
    }
  }

  /**
    * A mark lights the LED for 1 (Short) or 3 (Long) units, then switches
    * it off and waits one unit; a pause only waits, 3 or 7 units, and never
    * switches the LED.
    */
  lemma PulseShape(p: Pulse)
    ensures p.IsMark() ==>
              && |PulseTrace(p)| == 4
              && PulseTrace(p)[0] == On && PulseTrace(p)[2] == Off
              && PulseTrace(p)[1] == Wait(TIME_UNIT * (if p == Short then 1 else 3))
              && PulseTrace(p)[3] == Wait(TIME_UNIT)
    ensures !p.IsMark() ==>
              && |PulseTrace(p)| == 1
              && PulseTrace(p)[0] == Wait(TIME_UNIT * (if p == LetterPause then 3 else 7))
  {
  }

  /** Whatever the LED did before, a mark leaves it off and a pause leaves it as it was. */
  lemma PulseLeavesLed(lit: bool, t: seq<Event>, p: Pulse)
    ensures LitAfter(lit, t + PulseTrace(p)) == (LitAfter(lit, t) && !p.IsMark())
  {
    LitAfterAppend(lit, t, PulseTrace(p));
  }

  /**
    * The LED pin (port 13, pin 7, active low) together with the blocking
    * delay provider. `lit` is the current LED level and `trace` every
    * effect so far.
    */
  class Board {
    var lit: bool
    var trace: seq<Event>

    /** The LED level is the one the recorded switches leave, from an unlit start. */
    ghost predicate Valid()
      reads this
    {
      lit == LitAfter(false, trace)
    }

    /** Start-up leaves the LED off and nothing recorded. */
    constructor ()
      ensures Valid() && !lit && trace == []
    {
      lit := false;
      trace := [];
    }

    /** Clearing the active-low output bit lights the LED. */
    method LedOn()
      requires Valid()
      modifies this
      ensures Valid() && lit
      ensures trace == old(trace) + [On]
    {
      lit := true;
      trace := trace + [On];
    }

    /** Setting the active-low output bit darkens the LED. */
    method LedOff()
      requires Valid()
      modifies this
      ensures Valid() && !lit
      ensures trace == old(trace) + [Off]
    {
      lit := false;
      trace := trace + [Off];
    }

    /** Blocks for `ms` milliseconds; the LED keeps its level. */
    method DelayMs(ms: nat)
      requires Valid()
      modifies this
      ensures Valid() && lit == old(lit)
      ensures trace == old(trace) + [Wait(ms)]
    {
      trace := trace + [Wait(ms)];
      assert trace[..|trace| - 1] == old(trace);
    }
  }

  /** Executes one pulse on the board. */
  method ExecuteMorsePulse(board: Board, p: Pulse)
    requires board.Valid()
    modifies board
    ensures board.Valid()
    ensures board.trace == old(board.trace) + PulseTrace(p)
    ensures board.lit == (old(board.lit) && !p.IsMark())
  {
    match p
    case Short =>
      board.LedOn();
      board.DelayMs(TIME_UNIT);
      board.LedOff();
      board.DelayMs(TIME_UNIT);
    case Long =>
      board.LedOn();
      board.DelayMs(TIME_UNIT * 3);
      board.LedOff();
      board.DelayMs(TIME_UNIT);
    case LetterPause =>
      board.DelayMs(TIME_UNIT * 3);
    case WordPause =>
      board.DelayMs(TIME_UNIT * 7);
  }
}
