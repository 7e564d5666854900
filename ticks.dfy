/** What a clock tick or a skip-button press sets off, as a list of events.

    The audio and MIDI libraries are replaced by the events they would be
    asked to perform: starting a copy of a track's sample, or a MIDI note-on.
    The same rule decides both clocks: step s of track t triggers only when
    s is below the track's step count; the sample plays when the step is set
    and a sample is loaded; a note-on goes out when the step is set, the
    track is a drum track (t < 4), MIDI is enabled and an output is selected. */
module Ticks {
  import Midi
  import opened Grid

  datatype Event =
    | PlaySample(track: nat)
    | NoteOn(note: int, channel: int, velocity: int)

  /** The track an event comes from. */
  function TrackOf(e: Event): int
  {
    match e
    case PlaySample(t) => t
    case NoteOn(n, _, _) => Midi.NoteTrack(n)
  }

  /** What a tick reads of one track. `ownClock` is the track's own
      transport flag: the track is driven by its own clock, not the global one. */
  datatype Track = Track(pattern: seq<bool>, count: int, loaded: bool, ownClock: bool, volume: real)

  /** Whether MIDI access was granted and an output device is selected. */
  datatype MidiLink = MidiLink(enabled: bool, outputSelected: bool)

  /** Step s is set in the track's stored pattern (an index outside the
      pattern reads as unset). */
  predicate StepOn(tr: Track, s: int)
  {
    0 <= s < |tr.pattern| && tr.pattern[s]
  }

  /** Track t may send MIDI at all. */
  predicate MidiFires(t: nat, link: MidiLink)
  {
    t < Midi.MidiTracks && link.enabled && link.outputSelected
  }

  function NoteOnFor(t: nat, tr: Track): (e: Event)
    requires t < Midi.MidiTracks
    ensures e.NoteOn? && TrackOf(e) == t
  {
    NoteOn(Midi.Note(t), Midi.Channel(t), Midi.Velocity(tr.volume))
  }

  /** The events of an active step: its sample, then its note. */
  function TriggerEvents(t: nat, tr: Track, link: MidiLink, s: int): (ev: seq<Event>)
    ensures |ev| <= 2
  {
    (if StepOn(tr, s) && tr.loaded then [PlaySample(t)] else [])
    + (if MidiFires(t, link) && StepOn(tr, s) then [NoteOnFor(t, tr)] else [])
  }

  /** An active step's events all belong to its track; its sample plays iff
      the step is set and a sample is loaded; its note goes out iff the track
      may send MIDI and the step is set, loaded sample or not. */
  lemma TriggerEventsSpec(t: nat, tr: Track, link: MidiLink, s: int)
    ensures forall e :: e in TriggerEvents(t, tr, link, s) ==> TrackOf(e) == t
    ensures PlaySample(t) in TriggerEvents(t, tr, link, s) <==> StepOn(tr, s) && tr.loaded
    ensures (exists e :: e in TriggerEvents(t, tr, link, s) && e.NoteOn?) <==> MidiFires(t, link) && StepOn(tr, s)
  {
    var ev := TriggerEvents(t, tr, link, s);
    if MidiFires(t, link) && StepOn(tr, s) {
      assert NoteOnFor(t, tr) in ev;
    }
  }

  /** A tick at step s, gated by the track's step count. */
  function StepEvents(t: nat, tr: Track, link: MidiLink, s: int): seq<Event>
  {
    if s < tr.count then TriggerEvents(t, tr, link, s) else []
  }

  /** What the global clock does for track t: nothing for a track on its own clock. */
  function GlobalTrackEvents(t: nat, tr: Track, link: MidiLink, s: int): seq<Event>
  {
    if tr.ownClock then [] else StepEvents(t, tr, link, s)
  }

  /** What track t's own clock does: nothing unless the track's own transport runs. */
  function TrackClockEvents(t: nat, tr: Track, link: MidiLink, s: int): seq<Event>
  {
    if tr.ownClock then StepEvents(t, tr, link, s) else []
  }

  /** The events of one global tick over tracks 0 .. n-1, in track order. */
  function GlobalEvents(tracks: seq<Track>, link: MidiLink, s: int, n: nat): (ev: seq<Event>)
    requires n <= |tracks|
    ensures |ev| <= 2 * n
  {
    if n == 0 then []
    else GlobalEvents(tracks, link, s, n - 1) + GlobalTrackEvents(n - 1, tracks[n - 1], link, s)
  }

  /** What a skip-button press does once the track's current step is s:
      the sample plays when the step is set and a sample is loaded, and only
      then may the note go out. The step count is not consulted. */
  function ManualStepEvents(t: nat, tr: Track, link: MidiLink, s: int): (ev: seq<Event>)
    ensures forall e :: e in ev ==> TrackOf(e) == t
    ensures PlaySample(t) in ev <==> StepOn(tr, s) && tr.loaded
    ensures (exists e :: e in ev && e.NoteOn?) <==> MidiFires(t, link) && StepOn(tr, s) && tr.loaded
  {
    if StepOn(tr, s) && tr.loaded then
      [PlaySample(t)] + (if MidiFires(t, link) then [NoteOnFor(t, tr)] else [])
    else []
  }

  /** A step skipped to by hand plays exactly when a clock would play it on
      an active step; the note goes out only together with the sample. */
  lemma ManualStepMatchesClockSample(t: nat, tr: Track, link: MidiLink, s: int)
    requires s < tr.count
    ensures PlaySample(t) in ManualStepEvents(t, tr, link, s) <==> PlaySample(t) in StepEvents(t, tr, link, s)
    ensures (exists e :: e in ManualStepEvents(t, tr, link, s) && e.NoteOn?) ==> PlaySample(t) in ManualStepEvents(t, tr, link, s)
  {
  }

  /** Unlike a clock, the skip buttons can play an inactive step, and they
      alone get there: at 16 steps, eleven forward presses from the start
      reach step 10; once the count is lowered to 4, a backward press lands
      on step 9, and a stored step 9 then plays although no clock would
      play it. */
  lemma SkipPlaysInactiveStep(t: nat, link: MidiLink)
    ensures Pressed(-1, 16, Forward, 11) == 10
    ensures var tr := Track(seq(16, i => i == 9), 4, true, false, 0.8);
      NextStep(10, tr.count, Backward) == 9 &&
      StepEvents(t, tr, link, 9) == [] &&
      PlaySample(t) in ManualStepEvents(t, tr, link, 9)
  {
    ForwardPresses(16, 11);
  }

  /** The step count gates but does not erase: a stored step at or beyond the
      count sets off nothing, and sets off its full events once the count is
      raised above it. */
  lemma DormantStepReactivates(t: nat, tr: Track, link: MidiLink, s: int, n: int)
    requires tr.count <= s < n
    ensures StepEvents(t, tr, link, s) == []
    ensures StepEvents(t, tr.(count := n), link, s) == TriggerEvents(t, tr, link, s)
  {
  }

  /** A track is driven by at most one clock at a tick, and both clocks apply
      the same rule. */
  lemma OneClockPerTrack(t: nat, tr: Track, link: MidiLink, s: int)
    ensures GlobalTrackEvents(t, tr, link, s) == [] || TrackClockEvents(t, tr, link, s) == []
    ensures GlobalTrackEvents(t, tr.(ownClock := false), link, s) == TrackClockEvents(t, tr.(ownClock := true), link, s)
  {
  }

  /** An event is in a global tick exactly when the global clock's rule, applied
      to the track it comes from, produces it. */
  lemma {:induction false} GlobalEventsMembership(tracks: seq<Track>, link: MidiLink, s: int, n: nat, e: Event)
    requires n <= |tracks|
    ensures e in GlobalEvents(tracks, link, s, n) <==>
      0 <= TrackOf(e) < n && e in GlobalTrackEvents(TrackOf(e), tracks[TrackOf(e)], link, s)
  {
    if n > 0 {
      var k := TrackOf(e);
      var earlier := GlobalEvents(tracks, link, s, n - 1);
      var last := GlobalTrackEvents(n - 1, tracks[n - 1], link, s);
      assert GlobalEvents(tracks, link, s, n) == earlier + last;
      assert e in earlier + last <==> e in earlier || e in last;
      GlobalEventsMembership(tracks, link, s, n - 1, e);
      GlobalTrackEventsBelong(n - 1, tracks[n - 1], link, s, e);
      if k == n - 1 {
        assert e !in earlier;
      } else {
        assert e !in last;
      }
    }
  }

  /** Every event the global rule produces for track t comes from track t. */
  lemma GlobalTrackEventsBelong(t: nat, tr: Track, link: MidiLink, s: int, e: Event)
    ensures e in GlobalTrackEvents(t, tr, link, s) ==> TrackOf(e) == t
  {
    TriggerEventsSpec(t, tr, link, s);
  }

  /** Global tick, sample side: track t's sample plays iff the track is not on
      its own clock, s is below its step count, the step is set and a sample is loaded. */
  lemma {:induction false} GlobalPlaysSample(tracks: seq<Track>, link: MidiLink, s: int, t: nat)
    requires t < |tracks|
    ensures PlaySample(t) in GlobalEvents(tracks, link, s, |tracks|) <==>
      !tracks[t].ownClock && s < tracks[t].count && StepOn(tracks[t], s) && tracks[t].loaded
  {
    GlobalEventsMembership(tracks, link, s, |tracks|, PlaySample(t));
  }

  /** Global tick, MIDI side: a note-on for track t goes out iff the track is
      not on its own clock, s is below its step count, t < 4, MIDI is enabled,
      an output is selected and the step is set, whether or not a sample is
      loaded; it is track t's note, channel and velocity. */
  lemma {:induction false} GlobalSendsNote(tracks: seq<Track>, link: MidiLink, s: int, t: nat)
    requires t < |tracks|
    ensures (exists e :: e in GlobalEvents(tracks, link, s, |tracks|) && e.NoteOn? && TrackOf(e) == t) <==>
      !tracks[t].ownClock && s < tracks[t].count && MidiFires(t, link) && StepOn(tracks[t], s)
    ensures !tracks[t].ownClock && s < tracks[t].count && MidiFires(t, link) && StepOn(tracks[t], s) ==>
      NoteOn(Midi.Note(t), Midi.Channel(t), Midi.Velocity(tracks[t].volume)) in GlobalEvents(tracks, link, s, |tracks|)
  {
    var ev := GlobalEvents(tracks, link, s, |tracks|);
    var own := GlobalTrackEvents(t, tracks[t], link, s);
    forall e: Event | e.NoteOn? && TrackOf(e) == t
      ensures e in ev <==> e in own
    {
      GlobalEventsMembership(tracks, link, s, |tracks|, e);
    }
    if !tracks[t].ownClock && s < tracks[t].count && MidiFires(t, link) && StepOn(tracks[t], s) {
      var note := NoteOn(Midi.Note(t), Midi.Channel(t), Midi.Velocity(tracks[t].volume));
      assert note in own;
      GlobalEventsMembership(tracks, link, s, |tracks|, note);
    }
  }

  /** A track on its own clock, or a step at or beyond its step count, sets
      off nothing on the global tick. */
  lemma {:induction false} GlobalSkipsTrack(tracks: seq<Track>, link: MidiLink, s: int, t: nat)
    requires t < |tracks|
    requires tracks[t].ownClock || s >= tracks[t].count
    ensures forall e :: e in GlobalEvents(tracks, link, s, |tracks|) ==> TrackOf(e) != t
  {
    forall e | e in GlobalEvents(tracks, link, s, |tracks|)
      ensures TrackOf(e) != t
    {
      GlobalEventsMembership(tracks, link, s, |tracks|, e);
    }
  }

  /** With every volume in [0, 1], every note-on of a global tick has a drum
      note in 36..39, the matching channel in 9..12 and a velocity in 0..127. */
  lemma {:induction false} GlobalNotesInRange(tracks: seq<Track>, link: MidiLink, s: int)
    requires forall t :: 0 <= t < |tracks| ==> 0.0 <= tracks[t].volume <= 1.0
    ensures forall e :: e in GlobalEvents(tracks, link, s, |tracks|) && e.NoteOn? ==>
      36 <= e.note <= 39 && e.channel == e.note - 27 && 0 <= e.velocity <= 127
  {
    forall e | e in GlobalEvents(tracks, link, s, |tracks|) && e.NoteOn?
      ensures 36 <= e.note <= 39 && e.channel == e.note - 27 && 0 <= e.velocity <= 127
    {
      GlobalEventsMembership(tracks, link, s, |tracks|, e);
      var t := TrackOf(e);
      assert e == NoteOnFor(t, tracks[t]);
    }
  }
}
