// The character-to-pulse encoder of the Morse blinker: a total,
// case-insensitive lookup from a character to a fixed sequence of pulses.

module Encoder {

  /** One atomic unit of Morse signalling: a dot, a dash, or one of the two pauses. */
  datatype Pulse = Short | Long | LetterPause | WordPause
  {
    /** A mark lights the LED (a dot or a dash); a pause only waits. */
    predicate IsMark() {
      Short? || Long?
    }
  }

  predicate IsAsciiUpper(c: char) {
    'A' <= c <= 'Z'
  }

  predicate IsAsciiLower(c: char) {
    'a' <= c <= 'z'
  }

  predicate IsAsciiLetter(c: char) {
    IsAsciiUpper(c) || IsAsciiLower(c)
  }

  predicate IsAsciiDigit(c: char) {
    '0' <= c <= '9'
  }

  /** The characters the table knows: Latin letters of either case, decimal digits and space. */
  predicate IsSupported(c: char) {
    IsAsciiLetter(c) || IsAsciiDigit(c) || c == ' '
  }

  predicate AllMarks(ps: seq<Pulse>) {
    forall i :: 0 <= i < |ps| ==> ps[i].IsMark()
  }

  /**
    * Rust's `char::to_ascii_uppercase`: a..z move to A..Z, every other
    * character (including non-ASCII letters) is returned unchanged.
    */
  function ToAsciiUpper(c: char): (u: char)
    ensures !IsAsciiLower(u)
    ensures IsAsciiLower(c) ==> IsAsciiUpper(u) && u as int + 32 == c as int
    ensures !IsAsciiLower(c) ==> u == c
  {
    if IsAsciiLower(c) then (c as int - 32) as char else c
  }

  /**
    * The symbol table. Letters and figures are International Morse Code
    * with dot = Short and dash = Long; space is a word pause; anything else
    * is the empty sequence, so the lookup never fails.
    */
  function CharToMorsePulses(c: char): (r: seq<Pulse>)
    ensures IsAsciiLetter(c) ==> 1 <= |r| <= 4 && AllMarks(r)
    ensures IsAsciiDigit(c) ==> |r| == 5 && AllMarks(r)
    ensures c == ' ' ==> r == [WordPause]
    ensures !IsSupported(c) ==> r == []
    ensures LetterPause !in r
  {
    match ToAsciiUpper(c)
    case 'A' => [Short, Long]
    case 'B' => [Long, Short, Short, Short]
    case 'C' => [Long, Short, Long, Short]
    case 'D' => [Long, Short, Short]
    case 'E' => [Short]
    case 'F' => [Short, Short, Long, Short]
    case 'G' => [Long, Long, Short]
    case 'H' => [Short, Short, Short, Short]
    case 'I' => [Short, Short]
    case 'J' => [Short, Long, Long, Long]
    case 'K' => [Long, Short, Long]
    case 'L' => [Short, Long, Short, Short]
    case 'M' => [Long, Long]
    case 'N' => [Long, Short]
    case 'O' => [Long, Long, Long]
    case 'P' => [Short, Long, Long, Short]
    case 'Q' => [Long, Long, Short, Long]
    case 'R' => [Short, Long, Short]
    case 'S' => [Short, Short, Short]
    case 'T' => [Long]
    case 'U' => [Short, Short, Long]
    case 'V' => [Short, Short, Short, Long]
    case 'W' => [Short, Long, Long]
    case 'X' => [Long, Short, Short, Long]
    case 'Y' => [Long, Short, Long, Long]
    case 'Z' => [Long, Long, Short, Short]
    case '0' => [Long, Long, Long, Long, Long]
    case '1' => [Short, Long, Long, Long, Long]
    case '2' => [Short, Short, Long, Long, Long]
    case '3' => [Short, Short, Short, Long, Long]
    case '4' => [Short, Short, Short, Short, Long]
    case '5' => [Short, Short, Short, Short, Short]
    case '6' => [Long, Short, Short, Short, Short]
    case '7' => [Long, Long, Short, Short, Short]
    case '8' => [Long, Long, Long, Short, Short]
    case '9' => [Long, Long, Long, Long, Short]
    case ' ' => [WordPause]
    case _ => []
  }

  /**
    * Letters and figures of International Morse Code (ITU-R Recommendation
    * M.1677-1, Part I, section 1), written in the Recommendation's own
    * dot/dash notation. Independent of the table above; `MatchesItu` ties
    * the two together.
    */
  function ItuCode(u: char): (code: string)
  {
    match u
    case 'A' => ".-"
    case 'B' => "-..."
    case 'C' => "-.-."
    case 'D' => "-.."
    case 'E' => "."
    case 'F' => "..-."
    case 'G' => "--."
    case 'H' => "...."
    case 'I' => ".."
    case 'J' => ".---"
    case 'K' => "-.-"
    case 'L' => ".-.."
    case 'M' => "--"
    case 'N' => "-."
    case 'O' => "---"
    case 'P' => ".--."
    case 'Q' => "--.-"
    case 'R' => ".-."
    case 'S' => "..."
    case 'T' => "-"
    case 'U' => "..-"
    case 'V' => "...-"
    case 'W' => ".--"
    case 'X' => "-..-"
    case 'Y' => "-.--"
    case 'Z' => "--.."
    case '0' => "-----"
    case '1' => ".----"
    case '2' => "..---"
    case '3' => "...--"
    case '4' => "....-"
    case '5' => "....."
    case '6' => "-...."
    case '7' => "--..."
    case '8' => "---.."
    case '9' => "----."
    case _ => ""
  }

  /** Reads a dot/dash string as pulses: '.' is a Short, anything else a Long. */
  function FromDots(s: string): (r: seq<Pulse>)
    ensures |r| == |s|
    ensures forall i :: 0 <= i < |s| ==> r[i] == (if s[i] == '.' then Short else Long)
  {
    if s == [] then [] else [if s[0] == '.' then Short else Long] + FromDots(s[1..])
  }

  /** The standard's table covers exactly the upper-case letters and the digits. */
  lemma ItuDomain(u: char)
    ensures ItuCode(u) != "" <==> IsAsciiUpper(u) || IsAsciiDigit(u)
  {
  }

  /** Every letter (either case) and every digit is encoded as the standard prescribes. */
  lemma MatchesItu(c: char)
    requires IsAsciiLetter(c) || IsAsciiDigit(c)
    ensures CharToMorsePulses(c) == FromDots(ItuCode(ToAsciiUpper(c)))
  {
    var u := ToAsciiUpper(c);
    if IsAsciiDigit(u) {
      DigitsMatchItu(u);
    } else if u <= 'M' {
      LettersMatchItuAM(u);
    } else {
      LettersMatchItuNZ(u);
    }
  }

  lemma DigitsMatchItu(u: char)
    requires IsAsciiDigit(u)
    ensures CharToMorsePulses(u) == FromDots(ItuCode(u))
  {
  }

  lemma LettersMatchItuAM(u: char)
    requires 'A' <= u <= 'M'
    ensures CharToMorsePulses(u) == FromDots(ItuCode(u))
  {
  }

  lemma LettersMatchItuNZ(u: char)
    requires 'N' <= u <= 'Z'
    ensures CharToMorsePulses(u) == FromDots(ItuCode(u))
  {
  }

  /**
    * Distinct letters and figures get distinct pulse sequences, so each
    * character on its own can be read back unambiguously.
    */
  lemma CodesDistinct(c: char, d: char)
    requires IsAsciiLetter(c) || IsAsciiDigit(c)
    requires IsAsciiLetter(d) || IsAsciiDigit(d)
    requires ToAsciiUpper(c) != ToAsciiUpper(d)
    ensures CharToMorsePulses(c) != CharToMorsePulses(d)
  {
  }

  /** The lookup ignores case: a character and its upper-case form give the same pulses. */
  lemma CaseInsensitive(c: char)
    ensures CharToMorsePulses(c) == CharToMorsePulses(ToAsciiUpper(c))
  {
  }

  /** The examples given for the table. */
  lemma TableExamples()
    ensures CharToMorsePulses('a') == CharToMorsePulses('A') == [Short, Long]
    ensures CharToMorsePulses('S') == [Short, Short, Short]
    ensures CharToMorsePulses('O') == [Long, Long, Long]
    ensures CharToMorsePulses('E') == [Short]
    ensures CharToMorsePulses('T') == [Long]
    ensures CharToMorsePulses('0') == [Long, Long, Long, Long, Long]
    ensures CharToMorsePulses('5') == [Short, Short, Short, Short, Short]
    ensures CharToMorsePulses('!') == [] && CharToMorsePulses('@') == []
  {
  }
}
