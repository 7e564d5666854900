# Circuit Tracks step sequencer — a Dafny model

This project models the sequencer state machine of the Circuit Tracks web extension. The extension is a browser step sequencer with 8 sample tracks of 16 steps each. Each track has its own active step count (4, 8, 12 or 16). Tracks can follow a global clock or run on their own per-track clock. Skip buttons move a track's position by hand. The first 4 tracks (the Circuit's drum tracks) can also send MIDI note-ons. A 4×8 sample bank holds named samples that can be dragged onto tracks and exported as a list of names.

The audio library (Tone.js) and the MIDI library (WebMidi) are replaced by abstract events:

- `PlaySample(t)`: start a copy of track t's sample.
- `NoteOn(note, channel, velocity)`: send a MIDI note-on.

A clock tick and a skip-button press are each modelled as the list of events they set off.

Modules:

- `Midi` (`midi.dfy`): the note, channel and velocity sent for a drum track. Velocity is `Math.round(volume × 127)` computed on exact reals, where Math.round takes the nearest integer and rounds halves up.
- `Grid` (`grid.dfy`): the step grid as a value (one cell flips per click), JavaScript's truncating `%`, the skip-button arithmetic and the predicate that picks the highlighted (current) step.
- `Ticks` (`ticks.dfy`): the event lists of one track's step, of a global tick, of a per-track tick and of a skip-button press, with the lemmas that characterise them.
- `Extension` (`extension.dfy`): the class `CircuitTracks`, which holds the component's state.
  - The step grid and the bank grids are 2D arrays written in place. The source's handlers copy only the outer array, so the write lands in a row that the old and new state share.
  - The per-track lists are sequences, reassigned with one element changed.
  - Each handler is a method whose `ensures` gives the new state in terms of the old one.
  - Each method that returns events is tied to the matching function of `Ticks`.

Two behaviours of the code stand out against its own intent, and the model keeps them as written:

- **Skip buttons ignore the step count.** Both clock callbacks skip a step at or beyond the track's step count (`circuit-tracks-extension.tsx:503-504` and `:577-578`, each with a comment saying it processes only steps within the count), and the grid disables those step buttons (`:960`). `moveTrackStep` does not check the count (`:462`). The skip buttons alone can reach such a step: at 16 steps, eleven forward presses from −1 reach step 10; after the count is lowered to 4 (which leaves the position alone), a backward press only decrements, lands on 9, and a stored step 9 plays although no clock would play it (`Ticks.SkipPlaysInactiveStep`).
- **Backward stepping does not always wrap.** Forward stepping wraps modulo the count (`:453`), but backward stepping wraps only from −1 or 0 (`:456`); from a position at or beyond the count it just decrements (`Grid.BackwardFromStale`).

## Model

| member | source | states |
|---|---|---|
| `Midi.Round` | circuit-tracks-extension.tsx:472 | Math.round on an exact real: the result r satisfies r − ½ ≤ x < r + ½ (nearest integer, halves up) |
| `Midi.Note` | circuit-tracks-extension.tsx:471 | a drum track's note lies in 36..39, and NoteTrack maps it back to its track |
| `Midi.Channel` | circuit-tracks-extension.tsx:470 | a drum track's channel lies in 9..12 and is its note minus 27 |
| `Midi.Velocity` | circuit-tracks-extension.tsx:472 | velocity is volume × 127 rounded to nearest; a volume in [0,1] gives a velocity in 0..127 |
| `Midi.VelocityMonotone` | circuit-tracks-extension.tsx:472 | a higher volume never gives a lower velocity |
| `Midi.VelocityEnds` | circuit-tracks-extension.tsx:472 | volume 1.0 gives 127 and volume 0 gives 0 |
| `Midi.DrumExamples` | circuit-tracks-extension.tsx:470-472 | track 0 at volume 1.0 gives (36, 9, 127); track 3 at volume 0.5 gives (39, 12, 64) |
| `Grid.Updated` | circuit-tracks-extension.tsx:94-100 | writing one cell of a grid sets that cell and leaves every other cell and every row length as it was |
| `Grid.Toggled` | circuit-tracks-extension.tsx:386-390 | a click flips exactly the clicked cell; every other cell is unchanged |
| `Grid.ToggleTwice` | circuit-tracks-extension.tsx:386-390 | toggling the same step twice restores the grid |
| `Grid.JsRem` | circuit-tracks-extension.tsx:453 | JavaScript `%`: the remainder has the dividend's sign and is smaller than the divisor in size |
| `Grid.JsRemSmall` | circuit-tracks-extension.tsx:453 | a dividend smaller in size than the divisor is its own remainder; the divisor itself leaves remainder 0 |
| `Grid.JsRemQuotient` | circuit-tracks-extension.tsx:453 | the remainder completes a division truncated toward zero: a = b × trunc(a / b) + JsRem(a, b), so JsRem(a, b) is a − a multiple of b |
| `Grid.NextStep` | circuit-tracks-extension.tsx:448-459 | forward from any position ≥ −1 lands in [0, count); backward from a position ≤ count lands in [0, count); from a position ≥ −1 the result is never negative and lies below the count or below the old position |
| `Grid.NextStepFromStart` | circuit-tracks-extension.tsx:452-457 | forward from −1 gives 0; backward from −1 or 0 gives count − 1; forward from the last step wraps to 0 |
| `Grid.ForwardPresses` | circuit-tracks-extension.tsx:452-453 | from the start position −1, k ≤ count forward presses reach step k − 1 |
| `Grid.BackwardFromStale` | circuit-tracks-extension.tsx:455-457 | backward from a position at or beyond the count only decrements it |
| `Grid.ForwardBackwardInverse` | circuit-tracks-extension.tsx:448-459 | on an active step, forward then backward, and backward then forward, return to the same step |
| `Grid.Highlighted` | circuit-tracks-extension.tsx:943-953 | a highlighted step is always active and is the track's own position when it runs its own clock, the global position otherwise |
| `Grid.HighlightUnique` | circuit-tracks-extension.tsx:943-953 | at most one step of a track is highlighted |
| `Grid.HighlightFollowsClock` | circuit-tracks-extension.tsx:943-953 | an active step is highlighted iff it is the global position while the global transport plays (track on the global clock), or the track's own position (track on its own clock) |
| `Ticks.NoteOnFor` | circuit-tracks-extension.tsx:470-474 | the note-on of drum track t is a note-on that belongs to track t |
| `Ticks.MidiFires` | circuit-tracks-extension.tsx:587 | track t may send MIDI iff t < 4, MIDI is enabled and an output is selected; its consequences are stated by TriggerEventsSpec and GlobalSendsNote |
| `Ticks.TriggerEvents` | circuit-tracks-extension.tsx:579-605 | the sample event if the step is set and a sample is loaded, then the note-on if MIDI fires for the track and the step is set; at most two events; characterised by TriggerEventsSpec |
| `Ticks.TriggerEventsSpec` | circuit-tracks-extension.tsx:579-591 | an active step's events all belong to its track; the sample plays iff the step is set and a sample is loaded; a note-on is sent iff t < 4, MIDI is enabled, an output is selected and the step is set |
| `Ticks.StepEvents` | circuit-tracks-extension.tsx:577-578 | the count gate shared by both clocks: nothing at or beyond the count, the trigger events below it; characterised by DormantStepReactivates |
| `Ticks.GlobalTrackEvents` | circuit-tracks-extension.tsx:575-578 | the global clock passes over a track on its own transport and applies the count gate otherwise; characterised by OneClockPerTrack and GlobalSkipsTrack |
| `Ticks.TrackClockEvents` | circuit-tracks-extension.tsx:497-504 | a track's own clock does nothing unless the track's transport plays, and applies the same count gate; characterised by OneClockPerTrack |
| `Ticks.GlobalEvents` | circuit-tracks-extension.tsx:573-607 | the tracks' events concatenated in track order, at most two per track; characterised by GlobalEventsMembership |
| `Ticks.ManualStepEvents` | circuit-tracks-extension.tsx:461-474 | after a skip the sample plays iff the new step is set and a sample is loaded; a note-on is sent iff that holds too and t < 4 with MIDI enabled and an output selected |
| `Ticks.ManualStepMatchesClockSample` | circuit-tracks-extension.tsx:461-468 | on an active step a skip plays the sample exactly when a clock would; a skip sends MIDI only together with the sample |
| `Ticks.SkipPlaysInactiveStep` | circuit-tracks-extension.tsx:452-462 | at count 16, eleven forward presses from −1 reach 10; at count 4, backward from 10 lands on 9; a clock plays nothing there but the skip plays the stored step |
| `Ticks.DormantStepReactivates` | circuit-tracks-extension.tsx:578 | a step at or beyond the count sets off nothing; once the count is raised above it, it sets off its full events again |
| `Ticks.OneClockPerTrack` | circuit-tracks-extension.tsx:575 | for each track, the global tick or the track's own tick produces nothing; the two clocks apply the same rule |
| `Ticks.GlobalEventsMembership` | circuit-tracks-extension.tsx:573-607 | an event is in the global tick iff it comes from a track in range, and the global rule for that track produces it |
| `Ticks.GlobalPlaysSample` | circuit-tracks-extension.tsx:575-584 | on a global tick, track t's sample plays iff the track is not on its own clock, the step is below its count, the step is set and a sample is loaded |
| `Ticks.GlobalSendsNote` | circuit-tracks-extension.tsx:586-591 | on a global tick, a note-on of track t goes out iff the track is not on its own clock, the step is below its count, t < 4, MIDI is enabled, an output is selected and the step is set; sample loading plays no part; it carries track t's note, channel and velocity |
| `Ticks.GlobalSkipsTrack` | circuit-tracks-extension.tsx:575-578 | a track on its own clock, or a step at or beyond its count, contributes no event to a global tick |
| `Ticks.GlobalNotesInRange` | circuit-tracks-extension.tsx:589-591 | with volumes in [0,1], every note-on of a global tick has a note in 36..39, channel = note − 27 and a velocity in 0..127 |
| `Extension.CircuitTracks.constructor` | circuit-tracks-extension.tsx:32-86 | initial state: empty grid, count 16, position −1, volume 0.8, nothing playing or loaded, MIDI off, bank slots empty and named "Empty", no drag |
| `Extension.CircuitTracks.ToggleStep` | circuit-tracks-extension.tsx:386-390 | the grid becomes `Toggled` of the old grid (one cell flipped in place) |
| `Extension.CircuitTracks.ClickStep` | circuit-tracks-extension.tsx:957-960 | a click on an active step toggles it; a click on a step at or beyond the count leaves the grid unchanged |
| `Extension.CircuitTracks.UpdateTrackStepCount` | circuit-tracks-extension.tsx:379-383 | only track t's count changes; what a tick reads of every track is the same except that count |
| `Extension.CircuitTracks.UpdateTrackVolume` | circuit-tracks-extension.tsx:543-547 | only track t's volume changes, to the slider value in [0,1] |
| `Extension.CircuitTracks.LoadTrackSample` | circuit-tracks-extension.tsx:321-335 | a decoded upload marks track t loaded and sets its name; other tracks are unchanged |
| `Extension.CircuitTracks.TogglePlayback` | circuit-tracks-extension.tsx:393-406 | the global playing flag flips; stopping resets the global position to −1 |
| `Extension.CircuitTracks.ToggleTrackPlayback` | circuit-tracks-extension.tsx:409-446 | the track's own transport flag flips; its own clock exists exactly while it plays; stopping resets its position to −1 |
| `Extension.CircuitTracks.MoveTrackStep` | circuit-tracks-extension.tsx:448-485 | only track t's position changes, to `NextStep` of the old one; the events are `ManualStepEvents` at the new position |
| `Extension.CircuitTracks.StepTrigger` | circuit-tracks-extension.tsx:504-534 | the events read from the state equal the count-gated step rule of `Ticks` |
| `Extension.CircuitTracks.TrackTick` | circuit-tracks-extension.tsx:495-534 | while the track plays, its position becomes s (even at or beyond its count) and the events are its own clock's rule; otherwise nothing changes or happens |
| `Extension.CircuitTracks.CollectGlobalEvents` | circuit-tracks-extension.tsx:573-607 | the loop over the 8 tracks yields exactly `GlobalEvents` of the current state |
| `Extension.CircuitTracks.GlobalTick` | circuit-tracks-extension.tsx:569-608 | a global tick records s as the global position and yields `GlobalEvents` |
| `Extension.CircuitTracks.EnableMidi` | circuit-tracks-extension.tsx:190-206 | a successful MIDI start-up enables MIDI, and selects the output when a Circuit Tracks device is found |
| `Extension.CircuitTracks.SelectMidiOutput` | circuit-tracks-extension.tsx:550-561 | an output is selected only when MIDI is enabled and the device exists |
| `Extension.CircuitTracks.InstallBankSample` | circuit-tracks-extension.tsx:92-101 | a decoded upload fills exactly slot (r, c) with a loaded sample named after the file |
| `Extension.CircuitTracks.ClearSampleFromBank` | circuit-tracks-extension.tsx:108-119 | exactly slot (r, c) becomes empty and is named "Empty" |
| `Extension.CircuitTracks.HandleDragStart` | circuit-tracks-extension.tsx:122-126 | a drag starts only from a slot holding a sample; from an empty slot nothing changes |
| `Extension.CircuitTracks.HandleDrop` | circuit-tracks-extension.tsx:132-159 | with a drag under way and a loaded source slot, the track is loaded and takes the slot's name; the bank is unchanged (copy, not move); the drag marker is reset to (−1, −1) |
| `Extension.CircuitTracks.ExportSampleBank` | circuit-tracks-extension.tsx:171-174 | the payload is exactly the 4×8 grid of slot names |
| `Extension.ExportAfterOneUpload` | circuit-tracks-extension.tsx:171-174 | uploading kick.wav into slot (0, 0) of a fresh bank and exporting gives kick.wav there and "Empty" in the 31 other slots |

## Left out

- Audio engine: decoding, players, cloning and `start(time)`, `gainToDb` and the per-track effects chains (`createEffectsChain`, `updateEffectParam`, reverb regeneration). These are calls into Tone.js with floating-point parameter scaling. A loaded sample is a flag.
- `playSampleFromBank` (`circuit-tracks-extension.tsx:162-168`): it only starts a player. It changes no state and sets off no sequencer event.
- Timing: Tone.Transport and Tone.Sequence scheduling, tempo and BPM, `Tone.context.resume`, and the note-offs scheduled one sixteenth later with `setTimeout` and `Transport.schedule`. The model keeps only the decisions driven by the step index.
- Transport starts: the library calls that start and stop the transport are not modelled, only the flags. Starting a track would start the transport only if its check (`circuit-tracks-extension.tsx:426`) were true. That check compares a boolean with the string "started", so it is always false and never starts anything.
- MIDI I/O: enumeration of devices, MIDI start/stop/clock listeners on inputs, disabling on unmount, and the caught exceptions of `playNote`/`stopNote`. A MIDI failure is caught and changes no state. Enabling and selecting are reduced to booleans supplied by the caller (`EnableMidi`, `SelectMidiOutput`).
- File reading: `FileReader` and asynchronous decoding. Only the install that runs when decoding completes is modelled.
- Export: JSON serialisation, building the data URI and clicking the download link. Only the payload's names grid is modelled.
- Rendering: all JSX apart from the highlight predicate and the click gate. This includes `components/knob.tsx`, a pointer-driven widget whose geometry is floating point and trigonometry.
- Closures: handlers read the current state. In the source each callback sees the state of the render that created it. The per-track clock's callback, for example, is created while its track is still stopped, so as written it reads a stopped flag for that track. The model does not reproduce this capture.
- Effect re-runs: the effect that initialises MIDI and audio (`circuit-tracks-extension.tsx:187-271`) re-runs when the tempo or the MIDI flag changes, and its cleanup disposes the global sequence and every per-track sequence without clearing the per-track refs. The per-track flag `trackSequence` stands for "the ref is non-null", so after such a re-run the model still says the track's clock exists, while the source holds a disposed one; the model also does not capture that the global tick effect (`:564-618`) does not recreate the global sequence after a tempo change.
- Midi.Velocity: computed on exact reals, not IEEE doubles. The source's double result can differ only when volume × 127 lies within rounding error of a half.
- Extension.CircuitTracks.UpdateTrackStepCount: takes the count as an integer from the selector's four options. The source parses the selector's string with `Number.parseInt`.
