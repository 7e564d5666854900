/** The MIDI numbers the sequencer sends to a Novation Circuit Tracks.

    Tracks 0 to 3 are the Circuit's drum tracks: track t plays note 36 + t on
    MIDI channel 9 + t, and the note's velocity is the track volume (a slider
    value in [0, 1]) scaled to 0..127 and rounded with JavaScript's Math.round.
    Volumes are exact reals here, so the rounding is exact too. */
module Midi {

  /** Only this many tracks (the drum tracks) are forwarded over MIDI. */
  const MidiTracks := 4

  /** Math.round on an exact real: the nearest integer, halves rounded up. */
  function Round(x: real): (r: int)
    ensures r as real - 0.5 <= x < r as real + 0.5
  {
    (x + 0.5).Floor
  }

  /** The drum note of track t. */
  function Note(t: nat): (n: int)
    requires t < MidiTracks
    ensures 36 <= n <= 39
    ensures NoteTrack(n) == t
  {
    36 + t
  }

  /** The track a drum note belongs to: the inverse of Note. */
  function NoteTrack(n: int): int
  {
    n - 36
  }

  /** The MIDI channel of track t. */
  function Channel(t: nat): (c: int)
    requires t < MidiTracks
    ensures 9 <= c <= 12
    ensures c == Note(t) - 27
  {
    9 + t
  }

  /** The velocity sent for a track at volume v: round(v * 127). */
  function Velocity(v: real): (vel: int)
    ensures vel as real - 0.5 <= v * 127.0 < vel as real + 0.5
    ensures 0.0 <= v <= 1.0 ==> 0 <= vel <= 127
  {
    Round(v * 127.0)
  }

  /** A louder track never sends a softer note. */
  lemma VelocityMonotone(v: real, w: real)
    requires v <= w
    ensures Velocity(v) <= Velocity(w)
  {
  }

  /** Full volume sends the largest velocity, silence the smallest. */
  lemma VelocityEnds()
    ensures Velocity(1.0) == 127
    ensures Velocity(0.0) == 0
  {
  }

  /** Track 0 at volume 1.0 sends (note 36, channel 9, velocity 127); track 3
      at volume 0.5 sends (note 39, channel 12, velocity 64): 63.5 rounds up. */
  lemma DrumExamples()
    ensures (Note(0), Channel(0), Velocity(1.0)) == (36, 9, 127)
    ensures (Note(3), Channel(3), Velocity(0.5)) == (39, 12, 64)
  {
  }
}
