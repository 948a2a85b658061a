# Morse blinker: text-to-signal pipeline

A Dafny model of the Morse-code blinker in `morse-code2/src/main.rs`. The
firmware blinks the LED on port 13, pin 7 of a PSoC 6 board. It sends a fixed
message in Morse code and repeats it forever. The model covers the three
parts that carry the logic:

- **Encoder** (`encoder.dfy`, module `Encoder`). `CharToMorsePulses` is a
  total, case-insensitive lookup from a character to a sequence of `Pulse`s
  (`Short`, `Long`, `LetterPause`, `WordPause`). Letters and figures follow
  International Morse Code (ITU-R Recommendation M.1677-1, Part I,
  section 1), with dot = `Short` and dash = `Long`. Space is `[WordPause]`.
  Every other character gives the empty sequence. `ToAsciiUpper` is Rust's
  `char::to_ascii_uppercase`. The Recommendation's letters and figures are
  written out again, in dot/dash notation, as `ItuCode`. `MatchesItu`
  proves the table agrees with that reference entry by entry.
- **Pulse executor** (`executor.dfy`, module `Executor`). The LED pin and
  the blocking delay provider form one `Board` object. It holds the current
  LED level `lit` and the trace of every effect so far: `On`, `Off` and
  `Wait(ms)`. The pin is active-low, so writing `out_clr` is `On` and writing
  `out_set` is `Off`. `ExecuteMorsePulse` appends exactly `PulseTrace(p)` to
  the trace. `TIME_UNIT` is 75 ms.
- **Playback sequencer** (`playback.dfy`, module `Playback`). `PlayPass` is
  one pass of the `idle` loop. For each character it executes that
  character's pulses, then one `LetterPause`. `Idle` runs a given number of
  passes in place of the endless loop. The message is a parameter.
  `PassPulses` and `PassTrace` specify one pass. `PassUnits` gives its
  duration from the per-pulse units (Short 2, Long 4, LetterPause 3,
  WordPause 7).

The code's spacing differs from section 2 of Part I of the Recommendation,
and the model follows the code. A mark is followed by a one-unit gap, and
every character by a 3-unit letter pause. So letters are 4 units apart
(`LetterGap`). A space adds 7 + 3 units (`SpaceGap`), so two words are
1 + 3 + 7 + 3 = 14 units apart. A dot takes two units (on, then gap), not
three. So a pass over "SOS" takes 9 + 15 + 9 = 33 units, not 39
(`SosDuration`).

## Model

| member | source | states |
|---|---|---|
| Encoder.ToAsciiUpper | morse-code2/src/main.rs:32 | Lower-case ASCII letters become their upper-case letter (code point minus 32); every other character is unchanged; the result is never a lower-case ASCII letter |
| Encoder.CharToMorsePulses | morse-code2/src/main.rs:31-192 | Total lookup: a letter gives 1 to 4 pulses, all Short/Long; a digit gives exactly 5 Short/Long pulses; space gives exactly [WordPause]; any other character gives []; no result ever holds a LetterPause |
| Encoder.MatchesItu | morse-code2/src/main.rs:33-188 | Every letter of either case and every digit is encoded as its International Morse Code (ITU-R M.1677-1), dot = Short, dash = Long |
| Encoder.CodesDistinct | morse-code2/src/main.rs:33-188 | Different letters or figures (ignoring case) get different pulse sequences |
| Encoder.CaseInsensitive | morse-code2/src/main.rs:32 | Looking up a character gives the same pulses as looking up its upper-case form |
| Encoder.TableExamples | morse-code2/src/main.rs:33-190 | 'a' and 'A' give [Short, Long]; S, O, E, T, 0 and 5 give their codes; '!' and '@' give [] |
| Executor.PulseDuration | morse-code2/src/main.rs:201-240 | Executing a pulse waits exactly TIME_UNIT times its units: Short 2, Long 4, LetterPause 3, WordPause 7 |
| Executor.PulseShape | morse-code2/src/main.rs:202-239 | Short is On, Wait(75), Off, Wait(75); Long is On, Wait(225), Off, Wait(75); LetterPause is only Wait(225); WordPause is only Wait(525) |
| Executor.PulseLeavesLed | morse-code2/src/main.rs:202-239 | After any history, a Short or Long leaves the LED off and a pause leaves the LED level unchanged |
| Executor.Board.constructor | morse-code2/src/main.rs:283-287 | Start-up leaves the LED off and no effect recorded |
| Executor.Board.LedOn | morse-code2/src/main.rs:204-207 | Writing out_clr lights the LED and records On |
| Executor.Board.LedOff | morse-code2/src/main.rs:211-214 | Writing out_set darkens the LED and records Off |
| Executor.Board.DelayMs | morse-code2/src/main.rs:208 | A delay records Wait(ms) and keeps the LED level |
| Executor.ExecuteMorsePulse | morse-code2/src/main.rs:196-241 | Executing a pulse appends exactly that pulse's effects to the trace; after it the LED is off for a Short or Long and unchanged for a pause; the board invariant is kept |
| Playback.PlayPass | morse-code2/src/main.rs:302-312 | One pass appends exactly the trace of every character's pulses, each followed by one LetterPause, in message order; the LED is then off unless the pass had no Short/Long and it was already on |
| Playback.Idle | morse-code2/src/main.rs:299-313 | n turns of the outer loop append n copies of the one-pass trace |
| Playback.PassPulsesAppend | morse-code2/src/main.rs:302-312 | A pass over two message pieces is the pass over the first, then the pass over the second |
| Playback.PassPulsesAt | morse-code2/src/main.rs:302-312 | Character i contributes, in its place, its own code followed by exactly one LetterPause |
| Playback.LetterPausesPerPass | morse-code2/src/main.rs:306-311 | A pass executes exactly as many LetterPauses as the message has characters, spaces included |
| Playback.TraceDuration | morse-code2/src/main.rs:303-305 | Executing any pulse sequence waits TIME_UNIT times the sum of its pulses' units |
| Playback.PassDuration | morse-code2/src/main.rs:302-312 | The wait time of a pass is TIME_UNIT times the sum, per character, of its code's units plus 3 |
| Playback.SosDuration | morse-code2/src/main.rs:302-312 | A pass over "SOS" waits 33 time units in total |
| Playback.LetterGap | morse-code2/src/main.rs:306-311 | After a letter or figure, the LED goes off, then a 1-unit gap and one 3-unit letter pause follow |
| Playback.SpaceGap | morse-code2/src/main.rs:189 | A space in a pass is a 7-unit wait followed by a 3-unit wait, with no LED change |
| Playback.TraceLed | morse-code2/src/main.rs:202-239 | After a pulse sequence the LED is off if the sequence holds a Short or Long, and unchanged if not |
| Playback.PassLeavesLed | morse-code2/src/main.rs:302-312 | After a pass the LED is off if the pass has a Short or Long, and unchanged if not |
| Playback.OnIsFollowedByOff | morse-code2/src/main.rs:202-231 | Every time the LED goes on, a wait, an Off and a 1-unit wait follow, so two marks never merge |
| Playback.PassPulsesRepeat | morse-code2/src/main.rs:299-313 | n passes over a message execute the same pulses as one pass over the message written n times |
| Playback.TraceRepeat | morse-code2/src/main.rs:299-313 | Executing n copies of a pulse sequence gives n copies of its trace |
| Playback.RepeatPeriodic | morse-code2/src/main.rs:299-313 | The repeated stream wraps around: position k + length holds the same item as position k |
| Playback.RepeatDuration | morse-code2/src/main.rs:299-313 | n passes wait n times as long as one pass |

## Left out

- The RTIC application scaffolding (`morse-code2/src/main.rs:243-290`) is not modelled: the SysTick monotonic, the vector-table write, the GPIO drive-mode setup and `Peripherals::steal()`. Only its net effect is kept: the LED starts off (`Board` constructor).
- `morse-code/build.rs` and `morse-code/src/main.rs` are not part of this model. They are build plumbing and a separate LED-toggle demo.
- Real time is not modelled. `cortex_m::delay::Delay::delay_ms` and the 50 MHz SysTick clock become recorded `Wait(ms)` events.
- Playback.Idle: the firmware's outer `loop` never ends. The model runs a given number of passes and states repetition with `Repeat`, `RepeatPeriodic` and `PassPulsesRepeat`.
- The message is a parameter, not the literal string at `morse-code2/src/main.rs:302`.
- Delay arguments are `u32` in the source and `nat` in the model. Every argument is a constant of at most 525, so no wrap-around can occur.
- The two register writes per LED switch are one event each. The active-low polarity is folded into `On`/`Off`.
