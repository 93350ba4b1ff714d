/** The MIDI commands that the MIDI engine passes around. */
module Midi {
  type byte = x: int | 0 <= x < 256

  /** One timed channel command: a status byte, a pitch, a velocity and a time in milliseconds. */
  datatype Command = Command(event: byte, note: byte, velocity: byte, time: int)

  /** What the source writes `event & 15`. */
  function Channel(c: Command): int {
    c.event % 16
  }

  /** What the source writes `event & 240`. */
  function Nibble(c: Command): int {
    c.event / 16 * 16
  }

  const NOTE_ON := 144
  const NOTE_OFF := 128

  predicate IsOn(c: Command) {
    Nibble(c) == NOTE_ON
  }

  predicate IsOff(c: Command) {
    Nibble(c) == NOTE_OFF
  }

  predicate IsNote(c: Command) {
    IsOn(c) || IsOff(c)
  }

  /** The status byte is the kind and the channel; 9 is the kind of a note-on and 8 that of a note-off. */
  lemma {:induction false} StatusByte(c: Command)
    ensures 0 <= Channel(c) < 16 && c.event == Nibble(c) + Channel(c)
    ensures IsOn(c) <==> 0x90 <= c.event <= 0x9F
    ensures IsOff(c) <==> 0x80 <= c.event <= 0x8F
  {
  }
}
