/** The sequencer component's state and its event handlers.

    One object holds what the component keeps in its state hooks. The step
    grid and the two sample-bank grids are 2D arrays because the handlers
    that change them write into rows that the old and new state share; the
    per-track lists, which the handlers copy and then assign one element of,
    are sequences that the methods reassign. Audio players become "loaded"
    flags, the MIDI output a "selected" flag, and a per-track Tone.Sequence
    a "sequence exists" flag. */
module Extension {
  import Midi
  import opened Grid
  import opened Ticks

  const BankRows := 4
  const BankCols := 8

  class CircuitTracks {
    /** steps[t, s]: step s of track t is set. */
    const steps: array2<bool>
    var trackStepCounts: seq<int>
    /** Each track's own clock position; -1 before its first step. */
    var trackCurrentSteps: seq<int>
    /** Each track's own transport flag. */
    var trackPlaying: seq<bool>
    /** Whether the track's own clock exists: the per-track sequence ref is
        non-null. Toggling the track's transport creates it or disposes and
        clears it, so it exists exactly while the track plays. */
    var trackSequence: seq<bool>
    /** Whether a sample is loaded on each track, and its displayed name. */
    var samples: seq<bool>
    var sampleNames: seq<string>
    var trackVolumes: seq<real>
    /** The global transport and its position; -1 when stopped. */
    var playing: bool
    var currentStep: int
    var midiEnabled: bool
    var midiOutputSelected: bool
    /** The 4x8 sample bank: which slots hold a sample, and their names. */
    const sampleBank: array2<bool>
    const sampleBankNames: array2<string>
    /** The bank slot being dragged, or (-1, -1). */
    var draggedRow: int
    var draggedCol: int

    ghost predicate Valid()
      reads this
    {
      steps.Length0 == NumTracks && steps.Length1 == NumSteps &&
      sampleBank.Length0 == BankRows && sampleBank.Length1 == BankCols &&
      sampleBankNames.Length0 == BankRows && sampleBankNames.Length1 == BankCols &&
      sampleBank != steps &&
      |trackStepCounts| == NumTracks && (forall t :: 0 <= t < NumTracks ==> ValidCount(trackStepCounts[t])) &&
      |trackCurrentSteps| == NumTracks && (forall t :: 0 <= t < NumTracks ==> -1 <= trackCurrentSteps[t] < NumSteps) &&
      |trackPlaying| == NumTracks && trackSequence == trackPlaying &&
      |samples| == NumTracks && |sampleNames| == NumTracks &&
      |trackVolumes| == NumTracks && (forall t :: 0 <= t < NumTracks ==> 0.0 <= trackVolumes[t] <= 1.0) &&
      -1 <= currentStep < NumSteps &&
      ((draggedRow == -1 && draggedCol == -1) || (0 <= draggedRow < BankRows && 0 <= draggedCol < BankCols))
    }

    /** The stored pattern of track t. */
    ghost function Row(t: nat): (r: seq<bool>)
      requires Valid() && t < NumTracks
      reads this, steps
      ensures |r| == NumSteps && forall s :: 0 <= s < NumSteps ==> r[s] == steps[t, s]
    {
      seq(NumSteps, s requires 0 <= s < NumSteps reads steps => steps[t, s])
    }

    /** The whole step grid as a value. */
    ghost function Pattern(): (g: seq<seq<bool>>)
      requires Valid()
      reads this, steps
      ensures |g| == NumTracks && forall t :: 0 <= t < NumTracks ==> g[t] == Row(t)
    {
      seq(NumTracks, t requires 0 <= t < NumTracks && Valid() reads this, steps => Row(t))
    }

    /** What a tick reads of track t. */
    ghost function TrackAt(t: nat): Track
      requires Valid() && t < NumTracks
      reads this, steps
    {
      Track(Row(t), trackStepCounts[t], samples[t], trackPlaying[t], trackVolumes[t])
    }

    ghost function TrackStates(): (ts: seq<Track>)
      requires Valid()
      reads this, steps
      ensures |ts| == NumTracks && forall t :: 0 <= t < NumTracks ==> ts[t] == TrackAt(t)
    {
      seq(NumTracks, t requires 0 <= t < NumTracks && Valid() reads this, steps => TrackAt(t))
    }

    ghost function Link(): MidiLink
      reads this
    {
      MidiLink(midiEnabled, midiOutputSelected)
    }

    ghost function BankLoaded(): (b: seq<seq<bool>>)
      requires Valid()
      reads this, sampleBank
      ensures |b| == BankRows && forall r :: 0 <= r < BankRows ==>
        |b[r]| == BankCols && forall c :: 0 <= c < BankCols ==> b[r][c] == sampleBank[r, c]
    {
      seq(BankRows, r requires 0 <= r < BankRows && Valid() reads this, sampleBank =>
        seq(BankCols, c requires 0 <= c < BankCols reads sampleBank => sampleBank[r, c]))
    }

    ghost function BankNames(): (b: seq<seq<string>>)
      requires Valid()
      reads this, sampleBankNames
      ensures |b| == BankRows && forall r :: 0 <= r < BankRows ==>
        |b[r]| == BankCols && forall c :: 0 <= c < BankCols ==> b[r][c] == sampleBankNames[r, c]
    {
      seq(BankRows, r requires 0 <= r < BankRows && Valid() reads this, sampleBankNames =>
        seq(BankCols, c requires 0 <= c < BankCols reads sampleBankNames => sampleBankNames[r, c]))
    }

    /** The component's initial state: an empty grid of 16-step tracks at
        volume 0.8, everything stopped, no samples, no MIDI, an empty bank. */
    constructor ()
      ensures Valid() && fresh(steps) && fresh(sampleBank) && fresh(sampleBankNames)
      ensures forall t, s :: 0 <= t < NumTracks && 0 <= s < NumSteps ==> !steps[t, s]
      ensures trackStepCounts == seq(NumTracks, _ => 16) && trackCurrentSteps == seq(NumTracks, _ => -1)
      ensures trackPlaying == seq(NumTracks, _ => false) && samples == seq(NumTracks, _ => false)
      ensures sampleNames == seq(NumTracks, _ => "No sample loaded") && trackVolumes == seq(NumTracks, _ => 0.8)
      ensures !playing && currentStep == -1 && !midiEnabled && !midiOutputSelected
      ensures forall r, c :: 0 <= r < BankRows && 0 <= c < BankCols ==> !sampleBank[r, c] && sampleBankNames[r, c] == "Empty"
      ensures draggedRow == -1 && draggedCol == -1
    {
      steps := new bool[NumTracks, NumSteps]((_, _) => false);
      sampleBank := new bool[BankRows, BankCols]((_, _) => false);
      sampleBankNames := new string[BankRows, BankCols]((_, _) => "Empty");
      trackStepCounts := seq(NumTracks, _ => 16);
      trackCurrentSteps := seq(NumTracks, _ => -1);
      trackPlaying := seq(NumTracks, _ => false);
      trackSequence := seq(NumTracks, _ => false);
      samples := seq(NumTracks, _ => false);
      sampleNames := seq(NumTracks, _ => "No sample loaded");
      trackVolumes := seq(NumTracks, _ => 0.8);
      playing := false;
      currentStep := -1;
      midiEnabled := false;
      midiOutputSelected := false;
      draggedRow, draggedCol := -1, -1;
    }

    // ---------------------------------------------------------------- grid

    /** Flips step s of track t in place; no other cell changes. */
    method ToggleStep(t: nat, s: nat)
      requires Valid() && t < NumTracks && s < NumSteps
      modifies steps
      ensures Valid()
      ensures Pattern() == Toggled(old(Pattern()), t, s)
    {
      steps[t, s] := !steps[t, s];
      assert Pattern() == Toggled(old(Pattern()), t, s) by {
        var g, g0 := Pattern(), old(Pattern());
        forall i | 0 <= i < NumTracks ensures g[i] == Toggled(g0, t, s)[i] {
          assert forall j :: 0 <= j < NumSteps ==> g[i][j] == Toggled(g0, t, s)[i][j];
        }
      }
    }

    /** A click on a grid button: only an active step (below the track's
        step count) toggles; a click on an inactive step changes nothing. */
    method ClickStep(t: nat, s: nat)
      requires Valid() && t < NumTracks && s < NumSteps
      modifies steps
      ensures Valid()
      ensures s < trackStepCounts[t] ==> Pattern() == Toggled(old(Pattern()), t, s)
      ensures s >= trackStepCounts[t] ==> Pattern() == old(Pattern())
    {
      if s < trackStepCounts[t] {
        ToggleStep(t, s);
      }
    }

    /** Sets the step count of track t; the stored pattern is untouched, so
        a track's steps beyond a lowered count stay set and become active
        again when the count is raised. */
    method UpdateTrackStepCount(t: nat, n: int)
      requires Valid() && t < NumTracks && ValidCount(n)
      modifies this`trackStepCounts
      ensures Valid()
      ensures trackStepCounts == old(trackStepCounts)[t := n]
      ensures TrackStates() == old(TrackStates())[t := old(TrackAt(t)).(count := n)]
    {
      trackStepCounts := trackStepCounts[t := n];
      forall i | 0 <= i < NumTracks
        ensures TrackStates()[i] == old(TrackStates())[t := old(TrackAt(t)).(count := n)][i]
      {
        assert Row(i) == old(Row(i));
      }
    }

    method UpdateTrackVolume(t: nat, v: real)
      requires Valid() && t < NumTracks && 0.0 <= v <= 1.0
      modifies this`trackVolumes
      ensures Valid()
      ensures trackVolumes == old(trackVolumes)[t := v]
    {
      trackVolumes := trackVolumes[t := v];
    }

    /** Installs a decoded sample on track t (the effects chain is not modelled). */
    method LoadTrackSample(t: nat, name: string)
      requires Valid() && t < NumTracks
      modifies this`samples, this`sampleNames
      ensures Valid()
      ensures samples == old(samples)[t := true] && sampleNames == old(sampleNames)[t := name]
    {
      samples := samples[t := true];
      sampleNames := sampleNames[t := name];
    }

    // ----------------------------------------------------------- transport

    /** The global play/stop button. Stopping resets the global position to -1. */
    method TogglePlayback()
      requires Valid()
      modifies this`playing, this`currentStep
      ensures Valid()
      ensures playing == !old(playing)
      ensures currentStep == if old(playing) then -1 else old(currentStep)
    {
      if !playing {
        playing := true;
      } else {
        currentStep := -1;
        playing := false;
      }
    }

    /** A track's own play/stop button. Starting makes sure the track has
        its own clock; stopping removes it and resets the track's position. */
    method ToggleTrackPlayback(t: nat)
      requires Valid() && t < NumTracks
      modifies this`trackPlaying, this`trackSequence, this`trackCurrentSteps
      ensures Valid()
      ensures trackPlaying == old(trackPlaying)[t := !old(trackPlaying[t])]
      ensures trackSequence[t] == trackPlaying[t]
      ensures trackCurrentSteps == if old(trackPlaying[t]) then old(trackCurrentSteps)[t := -1] else old(trackCurrentSteps)
    {
      var newTrackPlaying := trackPlaying;
      if !newTrackPlaying[t] {
        newTrackPlaying := newTrackPlaying[t := true];
        if !trackSequence[t] {
          trackSequence := trackSequence[t := true];
        }
      } else {
        newTrackPlaying := newTrackPlaying[t := false];
        if trackSequence[t] {
          trackSequence := trackSequence[t := false];
        }
        trackCurrentSteps := trackCurrentSteps[t := -1];
      }
      trackPlaying := newTrackPlaying;
    }

    /** A skip button: moves track t's own position one step (wrapping on
        the step count) and plays the step it lands on. */
    method MoveTrackStep(t: nat, dir: Direction) returns (events: seq<Event>)
      requires Valid() && t < NumTracks
      modifies this`trackCurrentSteps
      ensures Valid()
      ensures trackCurrentSteps ==
        old(trackCurrentSteps)[t := NextStep(old(trackCurrentSteps[t]), trackStepCounts[t], dir)]
      ensures events == ManualStepEvents(t, TrackAt(t), Link(), trackCurrentSteps[t])
    {
      var maxSteps := trackStepCounts[t];
      var next: int;
      if dir == Forward {
        next := JsRem(trackCurrentSteps[t] + 1, maxSteps);
      } else {
        next := if trackCurrentSteps[t] <= 0 then maxSteps - 1 else trackCurrentSteps[t] - 1;
      }
      trackCurrentSteps := trackCurrentSteps[t := next];
      events := [];
      if steps[t, next] && samples[t] {
        events := [PlaySample(t)];
        if t < Midi.MidiTracks && midiEnabled && midiOutputSelected {
          events := events + [NoteOn(Midi.Note(t), Midi.Channel(t), Midi.Velocity(trackVolumes[t]))];
        }
      }
    }

    /** The rule one tick applies to active step s of track t, read from the state. */
    method StepTrigger(t: nat, s: nat) returns (events: seq<Event>)
      requires Valid() && t < NumTracks && s < NumSteps
      ensures events == StepEvents(t, TrackAt(t), Link(), s)
    {
      events := [];
      if s < trackStepCounts[t] {
        if steps[t, s] && samples[t] {
          events := events + [PlaySample(t)];
        }
        if t < Midi.MidiTracks && midiEnabled && midiOutputSelected && steps[t, s] {
          events := events + [NoteOn(Midi.Note(t), Midi.Channel(t), Midi.Velocity(trackVolumes[t]))];
        }
      }
    }

    /** A tick of track t's own clock at step s: when the track's transport
        runs, it records s as the track's position (even beyond the step
        count) and applies the step rule; otherwise it does nothing. */
    method TrackTick(t: nat, s: nat) returns (events: seq<Event>)
      requires Valid() && t < NumTracks && s < NumSteps
      modifies this`trackCurrentSteps
      ensures Valid()
      ensures trackCurrentSteps == if trackPlaying[t] then old(trackCurrentSteps)[t := s] else old(trackCurrentSteps)
      ensures events == TrackClockEvents(t, TrackAt(t), Link(), s)
    {
      events := [];
      if trackPlaying[t] {
        trackCurrentSteps := trackCurrentSteps[t := s];
        events := StepTrigger(t, s);
      }
    }

    /** The track loop of a global tick at step s: tracks on their own clock
        are skipped, the others apply the step rule, in track order. */
    method CollectGlobalEvents(s: nat) returns (events: seq<Event>)
      requires Valid() && s < NumSteps
      ensures events == GlobalEvents(TrackStates(), Link(), s, NumTracks)
    {
      ghost var tracks, link := TrackStates(), Link();
      events := [];
      for t := 0 to NumTracks
        invariant events == GlobalEvents(tracks, link, s, t)
      {
        assert tracks[t] == TrackAt(t);
        assert GlobalEvents(tracks, link, s, t + 1) == events + GlobalTrackEvents(t, tracks[t], link, s);
        if trackPlaying[t] {
          continue;
        }
        var trackEvents := StepTrigger(t, s);
        events := events + trackEvents;
      }
    }

    /** A tick of the global clock at step s: records s as the global
        position, then runs the track loop. */
    method GlobalTick(s: nat) returns (events: seq<Event>)
      requires Valid() && s < NumSteps
      modifies this`currentStep
      ensures Valid() && currentStep == s
      ensures events == GlobalEvents(TrackStates(), Link(), s, NumTracks)
    {
      currentStep := s;
      events := CollectGlobalEvents(s);
    }

    // ---------------------------------------------------------------- MIDI

    /** The outcome of enabling MIDI at start-up: on success MIDI is enabled,
        and the output is selected when a Circuit Tracks device was found. */
    method EnableMidi(granted: bool, circuitTracksFound: bool)
      requires Valid()
      modifies this`midiEnabled, this`midiOutputSelected
      ensures Valid()
      ensures midiEnabled == (old(midiEnabled) || granted)
      ensures midiOutputSelected == (old(midiOutputSelected) || (granted && circuitTracksFound))
    {
      if granted {
        midiEnabled := true;
        if circuitTracksFound {
          midiOutputSelected := true;
        }
      }
    }

    /** Choosing an output in the device list: ignored while MIDI is disabled
        or when no device has the chosen id. */
    method SelectMidiOutput(found: bool)
      requires Valid()
      modifies this`midiOutputSelected
      ensures Valid()
      ensures midiOutputSelected == (old(midiOutputSelected) || (midiEnabled && found))
    {
      if !midiEnabled {
        return;
      }
      if found {
        midiOutputSelected := true;
      }
    }

    // --------------------------------------------------------- sample bank

    /** Installs a decoded sample in bank slot (r, c), in place. */
    method InstallBankSample(r: nat, c: nat, name: string)
      requires Valid() && r < BankRows && c < BankCols
      modifies sampleBank, sampleBankNames
      ensures Valid()
      ensures BankLoaded() == Updated(old(BankLoaded()), r, c, true)
      ensures BankNames() == Updated(old(BankNames()), r, c, name)
    {
      sampleBank[r, c] := true;
      sampleBankNames[r, c] := name;
      BankWriteLemma(old(BankLoaded()), old(BankNames()), r, c);
    }

    /** Empties bank slot (r, c), in place; its name becomes "Empty". */
    method ClearSampleFromBank(r: nat, c: nat)
      requires Valid() && r < BankRows && c < BankCols
      modifies sampleBank, sampleBankNames
      ensures Valid()
      ensures BankLoaded() == Updated(old(BankLoaded()), r, c, false)
      ensures BankNames() == Updated(old(BankNames()), r, c, "Empty")
    {
      sampleBank[r, c] := false;
      sampleBankNames[r, c] := "Empty";
      BankWriteLemma(old(BankLoaded()), old(BankNames()), r, c);
    }

    /** The grids after one write to slot (r, c) of each bank array. */
    lemma BankWriteLemma(loaded0: seq<seq<bool>>, names0: seq<seq<string>>, r: nat, c: nat)
      requires Valid() && r < BankRows && c < BankCols
      requires |loaded0| == BankRows && |names0| == BankRows
      requires forall i :: 0 <= i < BankRows ==> |loaded0[i]| == BankCols && |names0[i]| == BankCols
      requires forall i, j :: 0 <= i < BankRows && 0 <= j < BankCols && (i != r || j != c) ==>
        sampleBank[i, j] == loaded0[i][j] && sampleBankNames[i, j] == names0[i][j]
      ensures BankLoaded() == Updated(loaded0, r, c, sampleBank[r, c])
      ensures BankNames() == Updated(names0, r, c, sampleBankNames[r, c])
    {
      var b, b0 := BankLoaded(), Updated(loaded0, r, c, sampleBank[r, c]);
      forall i | 0 <= i < BankRows ensures b[i] == b0[i] {
        assert forall j :: 0 <= j < BankCols ==> b[i][j] == b0[i][j];
      }
      var n, n0 := BankNames(), Updated(names0, r, c, sampleBankNames[r, c]);
      forall i | 0 <= i < BankRows ensures n[i] == n0[i] {
        assert forall j :: 0 <= j < BankCols ==> n[i][j] == n0[i][j];
      }
    }

    /** Starts dragging bank slot (r, c); only a slot holding a sample can be dragged. */
    method HandleDragStart(r: nat, c: nat)
      requires Valid() && r < BankRows && c < BankCols
      modifies this`draggedRow, this`draggedCol
      ensures Valid()
      ensures (draggedRow, draggedCol) == if sampleBank[r, c] then (r, c) else old((draggedRow, draggedCol))
    {
      if sampleBank[r, c] {
        draggedRow, draggedCol := r, c;
      }
    }

    /** Drops the dragged bank slot on track t. When a drag is under way and
        its slot still holds a sample, the track gets a copy of it and its
        name; the bank itself is left as it was (a copy, not a move). Any
        drag under way ends. */
    method HandleDrop(t: nat)
      requires Valid() && t < NumTracks
      modifies this`samples, this`sampleNames, this`draggedRow, this`draggedCol
      ensures Valid()
      ensures unchanged(sampleBank, sampleBankNames)
      ensures old(draggedRow) >= 0 && old(draggedCol) >= 0 ==> draggedRow == -1 && draggedCol == -1
      ensures old(draggedRow) < 0 || old(draggedCol) < 0 ==>
        draggedRow == old(draggedRow) && draggedCol == old(draggedCol)
      ensures
        if old(draggedRow) >= 0 && old(draggedCol) >= 0 && sampleBank[old(draggedRow), old(draggedCol)] then
          samples == old(samples)[t := true] &&
          sampleNames == old(sampleNames)[t := sampleBankNames[old(draggedRow), old(draggedCol)]]
        else
          samples == old(samples) && sampleNames == old(sampleNames)
    {
      if draggedRow >= 0 && draggedCol >= 0 {
        var row, col := draggedRow, draggedCol;
        if sampleBank[row, col] {
          samples := samples[t := true];
          sampleNames := sampleNames[t := sampleBankNames[row, col]];
        }
        draggedRow, draggedCol := -1, -1;
      }
    }

    /** The payload of the bank export: exactly the 4x8 grid of slot names. */
    method ExportSampleBank() returns (names: seq<seq<string>>)
      requires Valid()
      ensures |names| == BankRows
      ensures forall r :: 0 <= r < BankRows ==>
        |names[r]| == BankCols && forall c :: 0 <= c < BankCols ==> names[r][c] == sampleBankNames[r, c]
    {
      names := [];
      for r := 0 to BankRows
        invariant |names| == r
        invariant forall i :: 0 <= i < r ==>
          |names[i]| == BankCols && forall c :: 0 <= c < BankCols ==> names[i][c] == sampleBankNames[i, c]
      {
        var row: seq<string> := [];
        for c := 0 to BankCols
          invariant |row| == c
          invariant forall j :: 0 <= j < c ==> row[j] == sampleBankNames[r, j]
        {
          row := row + [sampleBankNames[r, c]];
        }
        names := names + [row];
      }
    }
  }

  /** Uploading "kick.wav" into the first slot of a fresh bank and exporting
      gives "kick.wav" there and "Empty" in the 31 other slots. */
  method ExportAfterOneUpload() returns (names: seq<seq<string>>)
    ensures |names| == BankRows && forall r :: 0 <= r < BankRows ==> |names[r]| == BankCols
    ensures names[0][0] == "kick.wav"
    ensures forall r, c :: 0 <= r < BankRows && 0 <= c < BankCols && (r != 0 || c != 0) ==> names[r][c] == "Empty"
  {
    var ct := new CircuitTracks();
    ghost var before := ct.BankNames();
    assert forall r, c :: 0 <= r < BankRows && 0 <= c < BankCols ==> before[r][c] == "Empty";
    ct.InstallBankSample(0, 0, "kick.wav");
    assert ct.BankNames() == Updated(before, 0, 0, "kick.wav");
    names := ct.ExportSampleBank();
    forall r, c | 0 <= r < BankRows && 0 <= c < BankCols && (r != 0 || c != 0)
      ensures names[r][c] == "Empty"
    {
      assert names[r][c] == ct.BankNames()[r][c] == before[r][c];
    }
  }
}
