// The playback sequencer: every character of the message is looked up,
// its pulses are executed in order, and one letter pause follows it
// unconditionally, spaces included. The device repeats the pass forever;
// here a run is a given number of passes.

module Playback {
  import opened Encoder
  import opened Executor

  /** The pulses one pass over `msg` executes: each character's code followed by a letter pause. */
  function PassPulses(msg: string): seq<Pulse> {
    if msg == [] then [] else CharToMorsePulses(msg[0]) + [LetterPause] + PassPulses(msg[1..])
  }

  /** The effects of executing the pulses `ps` one after the other. */
  function Trace(ps: seq<Pulse>): seq<Event> {
    if ps == [] then [] else PulseTrace(ps[0]) + Trace(ps[1..])
  }

  /** Everything one pass over `msg` does to the LED and the clock. */
  function PassTrace(msg: string): seq<Event> {
    Trace(PassPulses(msg))
  }

  /** Reference durations, in time units, of a pulse sequence, a character and a whole pass. */
  function TotalUnits(ps: seq<Pulse>): nat {
    if ps == [] then 0 else Units(ps[0]) + TotalUnits(ps[1..])
  }

  function CharUnits(c: char): nat {
    TotalUnits(CharToMorsePulses(c)) + Units(LetterPause)
  }

  function PassUnits(msg: string): nat {
    if msg == [] then 0 else CharUnits(msg[0]) + PassUnits(msg[1..])
  }

  /** `n` copies of `s`, one after the other. */
  function Repeat<T>(s: seq<T>, n: nat): seq<T> {
    if n == 0 then [] else s + Repeat(s, n - 1)
  }

  predicate NoMarks(ps: seq<Pulse>) {
    forall i :: 0 <= i < |ps| ==> !ps[i].IsMark()
  }

  lemma {:induction false} TraceAppend(a: seq<Pulse>, b: seq<Pulse>)
    ensures Trace(a + b) == Trace(a) + Trace(b)
  {
    if a == [] {
      assert a + b == b;
    } else {
      assert (a + b)[1..] == a[1..] + b;
      TraceAppend(a[1..], b);
    }
  }

  /** A pass over two message pieces is the pass over the first, then the pass over the second. */
  lemma {:induction false} PassPulsesAppend(m1: string, m2: string)
    ensures PassPulses(m1 + m2) == PassPulses(m1) + PassPulses(m2)
  {
    hide CharToMorsePulses;
    if m1 == [] {
      assert m1 + m2 == m2;
    } else {
      assert (m1 + m2)[1..] == m1[1..] + m2;
      PassPulsesAppend(m1[1..], m2);
    }
  }

  /**
    * Character `i` contributes, in its place, its own code followed by
    * exactly one letter pause.
    */
  lemma PassPulsesAt(msg: string, i: nat)
    requires i < |msg|
    ensures PassPulses(msg) == PassPulses(msg[..i]) + CharToMorsePulses(msg[i]) + [LetterPause] + PassPulses(msg[i + 1..])
  {
    hide CharToMorsePulses;
    hide PassPulses;
    assert msg == msg[..i] + [msg[i]] + msg[i + 1..];
    PassPulsesAppend(msg[..i] + [msg[i]], msg[i + 1..]);
    PassPulsesAppend(msg[..i], [msg[i]]);
    PassPulsesSingle(msg[i]);
  }

  lemma PassPulsesSingle(c: char)
    ensures PassPulses([c]) == CharToMorsePulses(c) + [LetterPause]
  {
    hide CharToMorsePulses;
    assert [c][1..] == [];
  }

  lemma TraceSingle(p: Pulse)
    ensures Trace([p]) == PulseTrace(p)
  {
    assert [p][1..] == [];
  }

  /** A pass executes exactly one letter pause per character, after spaces as well. */
  lemma {:induction false} LetterPausesPerPass(msg: string)
    ensures multiset(PassPulses(msg))[LetterPause] == |msg|
  {
    hide CharToMorsePulses;
    if msg != [] {
      LetterPausesPerPass(msg[1..]);
      assert LetterPause !in multiset(CharToMorsePulses(msg[0]));
    }
  }

  /** The time a pulse sequence takes is TIME_UNIT times the sum of its pulses' units. */
  lemma {:induction false} TraceDuration(ps: seq<Pulse>)
    ensures Duration(Trace(ps)) == TIME_UNIT * TotalUnits(ps)
  {
    if ps != [] {
      DurationAppend(PulseTrace(ps[0]), Trace(ps[1..]));
      PulseDuration(ps[0]);
      TraceDuration(ps[1..]);
    }
  }

  /** The time of a pass is TIME_UNIT times, per character, its code's units plus 3 for the letter pause. */
  lemma {:induction false} PassDuration(msg: string)
    ensures Duration(PassTrace(msg)) == TIME_UNIT * PassUnits(msg)
  {
    hide CharToMorsePulses;
    if msg != [] {
      var head := CharToMorsePulses(msg[0]) + [LetterPause];
      TraceAppend(head, PassPulses(msg[1..]));
      DurationAppend(Trace(head), PassTrace(msg[1..]));
      TraceDuration(head);
      TotalUnitsAppend(CharToMorsePulses(msg[0]), [LetterPause]);
      PassDuration(msg[1..]);
    }
  }

  lemma {:induction false} TotalUnitsAppend(a: seq<Pulse>, b: seq<Pulse>)
    ensures TotalUnits(a + b) == TotalUnits(a) + TotalUnits(b)
  {
    if a == [] {
      assert a + b == b;
    } else {
      assert (a + b)[1..] == a[1..] + b;
      TotalUnitsAppend(a[1..], b);
    }
  }

  /**
    * "SOS": each S is three 2-unit dots plus a 3-unit letter pause (9), the
    * O three 4-unit dashes plus the pause (15), 33 units in all.
    */
  lemma SosDuration()
    ensures Duration(PassTrace("SOS")) == 33 * TIME_UNIT
  {
    PassDuration("SOS");
    hide PassTrace;
    hide Trace;
    ThreeUnits(Short);
    ThreeUnits(Long);
    assert CharUnits('S') == 9 by {
      assert CharToMorsePulses('S') == [Short, Short, Short];
    }
    assert CharUnits('O') == 15 by {
      assert CharToMorsePulses('O') == [Long, Long, Long];
    }
    hide CharUnits;
    assert "SOS"[1..] == "OS" && "OS"[1..] == "S" && "S"[1..] == "";
    assert PassUnits("S") == 9;
    assert PassUnits("OS") == 24;
  }

  lemma ThreeUnits(p: Pulse)
    ensures TotalUnits([p, p, p]) == 3 * Units(p)
  {
    assert [p, p, p][1..] == [p, p] && [p, p][1..] == [p] && [p][1..] == [];
    assert TotalUnits([p]) == Units(p);
    assert TotalUnits([p, p]) == 2 * Units(p);
  }

  /**
    * After a letter or figure the LED goes off, then one unit of gap and
    * three of letter pause follow: a four-unit gap between letters.
    */
  lemma LetterGap(c: char)
    requires IsAsciiLetter(c) || IsAsciiDigit(c)
    ensures PassTrace([c]) == Trace(CharToMorsePulses(c)) + [Wait(TIME_UNIT * 3)]
    ensures Trace(CharToMorsePulses(c))[|Trace(CharToMorsePulses(c))| - 2..] == [Off, Wait(TIME_UNIT)]
  {
    hide CharToMorsePulses;
    var code := CharToMorsePulses(c);
    var n := |code|;
    PassPulsesSingle(c);
    TraceAppend(code, [LetterPause]);
    TraceSingle(LetterPause);
    TraceSingle(code[n - 1]);
    assert code == code[..n - 1] + [code[n - 1]];
    TraceAppend(code[..n - 1], [code[n - 1]]);
    PulseShape(code[n - 1]);
  }

  /** A space waits 7 units for the word pause and then 3 for the letter pause. */
  lemma SpaceGap()
    ensures PassTrace(" ") == [Wait(TIME_UNIT * 7), Wait(TIME_UNIT * 3)]
  {
    assert PassPulses(" ") == [WordPause, LetterPause];
    assert [WordPause, LetterPause][1..][1..] == [];
  }

  /**
    * Executing pulses leaves the LED switched off after any mark, and as it
    * was when there is none.
    */
  lemma {:induction false} TraceLed(lit: bool, ps: seq<Pulse>)
    ensures LitAfter(lit, Trace(ps)) == (lit && NoMarks(ps))
  {
    if ps == [] {
    } else {
      var n := |ps|;
      assert ps == ps[..n - 1] + [ps[n - 1]];
      TraceAppend(ps[..n - 1], [ps[n - 1]]);
      TraceSingle(ps[n - 1]);
      hide Trace;
      hide PulseTrace;
      TraceLed(lit, ps[..n - 1]);
      PulseLeavesLed(lit, Trace(ps[..n - 1]), ps[n - 1]);
      assert NoMarks(ps) == (NoMarks(ps[..n - 1]) && !ps[n - 1].IsMark());
    }
  }

  /**
    * Every time the LED is switched on it is followed by one delay, a switch
    * off and a one-unit gap, so two marks never run into each other.
    */
  lemma {:induction false} OnIsFollowedByOff(ps: seq<Pulse>, i: nat)
    requires i < |Trace(ps)| && Trace(ps)[i] == On
    ensures i + 3 < |Trace(ps)|
    ensures Trace(ps)[i + 1].Wait? && Trace(ps)[i + 2] == Off && Trace(ps)[i + 3] == Wait(TIME_UNIT)
  {
    var head := PulseTrace(ps[0]);
    assert Trace(ps) == head + Trace(ps[1..]);
    PulseShape(ps[0]);
    if i >= |head| {
      OnIsFollowedByOff(ps[1..], i - |head|);
    }
  }

  lemma {:induction false} RepeatSnoc<T>(s: seq<T>, n: nat)
    ensures Repeat(s, n + 1) == Repeat(s, n) + s
  {
    if n > 0 {
      RepeatSnoc(s, n - 1);
      assert Repeat(s, n + 1) == s + Repeat(s, n);
    } else {
      assert Repeat(s, 0) + s == s + Repeat(s, 0);
    }
  }

  lemma {:induction false} RepeatLength<T>(s: seq<T>, n: nat)
    ensures |Repeat(s, n)| == n * |s|
  {
    if n > 0 {
      RepeatLength(s, n - 1);
      assert n * |s| == |s| + (n - 1) * |s|;
    }
  }

  /**
    * The repeated stream wraps around: position k + |s| holds what position
    * k holds, so after the last character the first one comes again.
    */
  lemma {:induction false} RepeatPeriodic<T>(s: seq<T>, n: nat, k: nat)
    requires k + |s| < |Repeat(s, n)|
    ensures Repeat(s, n)[k + |s|] == Repeat(s, n)[k]
  {
    var tail := Repeat(s, n - 1);
    assert Repeat(s, n) == s + tail;
    if k >= |s| {
      RepeatPeriodic(s, n - 1, k - |s|);
    } else {
      assert tail == s + Repeat(s, n - 2);
    }
  }

  /** Playing a message n times is one pass over the message written out n times. */
  lemma {:induction false} PassPulsesRepeat(msg: string, n: nat)
    ensures PassPulses(Repeat(msg, n)) == Repeat(PassPulses(msg), n)
  {
    hide CharToMorsePulses;
    if n > 0 {
      PassPulsesAppend(msg, Repeat(msg, n - 1));
      PassPulsesRepeat(msg, n - 1);
    }
  }

  lemma {:induction false} TraceRepeat(ps: seq<Pulse>, n: nat)
    ensures Trace(Repeat(ps, n)) == Repeat(Trace(ps), n)
  {
    if n > 0 {
      TraceAppend(ps, Repeat(ps, n - 1));
      TraceRepeat(ps, n - 1);
    }
  }

  /** n passes take n times as long as one. */
  lemma {:induction false} RepeatDuration(t: seq<Event>, n: nat)
    ensures Duration(Repeat(t, n)) == n * Duration(t)
  {
    if n > 0 {
      DurationAppend(t, Repeat(t, n - 1));
      RepeatDuration(t, n - 1);
      assert n * Duration(t) == Duration(t) + (n - 1) * Duration(t);
    }
  }

  lemma TracePrefixStep(ps: seq<Pulse>, j: nat)
    requires j < |ps|
    ensures Trace(ps[..j + 1]) == Trace(ps[..j]) + PulseTrace(ps[j])
  {
    hide CharToMorsePulses;
    assert ps[..j + 1] == ps[..j] + [ps[j]];
    TraceAppend(ps[..j], [ps[j]]);
    TraceSingle(ps[j]);
  }

  lemma PassTracePrefixStep(msg: string, i: nat)
    requires i < |msg|
    ensures PassTrace(msg[..i + 1])
         == PassTrace(msg[..i]) + Trace(CharToMorsePulses(msg[i])) + PulseTrace(LetterPause)
  {
    hide CharToMorsePulses;
    var code := CharToMorsePulses(msg[i]);
    assert msg[..i + 1] == msg[..i] + [msg[i]];
    PassPulsesAppend(msg[..i], [msg[i]]);
    PassPulsesSingle(msg[i]);
    TraceAppend(PassPulses(msg[..i]), code + [LetterPause]);
    TraceAppend(code, [LetterPause]);
    TraceSingle(LetterPause);
  }

  lemma PassLeavesLed(t: seq<Event>, msg: string)
    ensures LitAfter(false, t + PassTrace(msg)) == (LitAfter(false, t) && NoMarks(PassPulses(msg)))
  {
    hide CharToMorsePulses;
    LitAfterAppend(false, t, PassTrace(msg));
    TraceLed(LitAfter(false, t), PassPulses(msg));
  }

  lemma EmptyPass()
    ensures Trace([]) == [] && PassTrace([]) == []
  {
  }

  /** One pass of the idle loop: each character's pulses, then one letter pause. */
  method PlayPass(board: Board, msg: string)
    requires board.Valid()
    modifies board
    ensures board.Valid()
    ensures board.trace == old(board.trace) + PassTrace(msg)
    ensures board.lit == (old(board.lit) && NoMarks(PassPulses(msg)))
  {
    hide CharToMorsePulses;
    hide PassPulses;
    hide PassTrace;
    hide Trace;
    hide PulseTrace;
    hide LitAfter;
    EmptyPass();
    for i := 0 to |msg|
      invariant board.Valid()
      invariant board.trace == old(board.trace) + PassTrace(msg[..i])
    {
      var pulses := CharToMorsePulses(msg[i]);
      ghost var before := board.trace;
      EmptyPass();
      for j := 0 to |pulses|
        invariant board.Valid()
        invariant board.trace == before + Trace(pulses[..j])
      {
        ExecuteMorsePulse(board, pulses[j]);
        TracePrefixStep(pulses, j);
      }
      ExecuteMorsePulse(board, LetterPause);
      assert pulses[..|pulses|] == pulses;
      PassTracePrefixStep(msg, i);
    }
    assert msg[..|msg|] == msg;
    PassLeavesLed(old(board.trace), msg);
  }

  /** The idle task run for `passes` passes over the message. */
  method Idle(board: Board, msg: string, passes: nat)
    requires board.Valid()
    modifies board
    ensures board.Valid()
    ensures board.trace == old(board.trace) + Repeat(PassTrace(msg), passes)
  {
    hide PassTrace;
    for k := 0 to passes
      invariant board.Valid()
      invariant board.trace == old(board.trace) + Repeat(PassTrace(msg), k)
    {
      PlayPass(board, msg);
      RepeatSnoc(PassTrace(msg), k);
    }
  }
}
