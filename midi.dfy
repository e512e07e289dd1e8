/** What the MIDI parser hands to the core (tracks of notes with a drum flag, tempo
    changes and time signatures, and the file's ticks per beat), and the in-place
    rescaling of all of it to 480 ticks per beat (`_normalize_ticks_per_beat`). */
module Midi {
  import opened Timing

  /** A note as the parser gives it: onset and offset in ticks and a MIDI pitch. */
  datatype Note = Note(start: int, end: int, pitch: int)

  /** A track: its drum flag and its notes, in file order. */
  datatype Instrument = Instrument(isDrum: bool, notes: seq<Note>)

  /** A tempo change; only its time is touched by the core. */
  datatype TempoChange = TempoChange(tempo: real, time: int)

  /** A time signature; only its time is touched by the core. */
  datatype TimeSignature = TimeSignature(numerator: int, denominator: int, time: int)

  /** A note with both its times rescaled: its pitch is kept, a note that does not
      end before it starts still does not, and at 480 ticks per beat nothing changes. */
  function RescaleNote(n: Note, tpb: int): (r: Note)
    requires tpb != 0
    ensures r.pitch == n.pitch
    ensures r.start == RescaleTick(n.start, tpb) && r.end == RescaleTick(n.end, tpb)
    ensures tpb > 0 && n.start <= n.end ==> r.start <= r.end
    ensures tpb == BeatResol ==> r == n
  {
    RescaleCanonical(n.start);
    RescaleCanonical(n.end);
    var r := n.(start := RescaleTick(n.start, tpb), end := RescaleTick(n.end, tpb));
    if tpb > 0 && n.start <= n.end then RescaleMonotone(n.start, n.end, tpb); r else r
  }

  function RescaleInstrument(inst: Instrument, tpb: int): (r: Instrument)
    requires tpb != 0
    ensures r.isDrum == inst.isDrum && |r.notes| == |inst.notes|
    ensures forall j :: 0 <= j < |r.notes| ==> r.notes[j] == RescaleNote(inst.notes[j], tpb)
  {
    inst.(notes := seq(|inst.notes|, j requires 0 <= j < |inst.notes| => RescaleNote(inst.notes[j], tpb)))
  }

  function RescaleInstruments(insts: seq<Instrument>, tpb: int): (r: seq<Instrument>)
    requires tpb != 0
    ensures |r| == |insts|
    ensures forall i :: 0 <= i < |r| ==> r[i] == RescaleInstrument(insts[i], tpb)
  {
    seq(|insts|, i requires 0 <= i < |insts| => RescaleInstrument(insts[i], tpb))
  }

  function RescaleTempos(ts: seq<TempoChange>, tpb: int): (r: seq<TempoChange>)
    requires tpb != 0
    ensures |r| == |ts|
    ensures forall i :: 0 <= i < |r| ==> r[i] == ts[i].(time := RescaleTick(ts[i].time, tpb))
  {
    seq(|ts|, i requires 0 <= i < |ts| => ts[i].(time := RescaleTick(ts[i].time, tpb)))
  }

  function RescaleSignatures(ts: seq<TimeSignature>, tpb: int): (r: seq<TimeSignature>)
    requires tpb != 0
    ensures |r| == |ts|
    ensures forall i :: 0 <= i < |r| ==> r[i] == ts[i].(time := RescaleTick(ts[i].time, tpb))
  {
    seq(|ts|, i requires 0 <= i < |ts| => ts[i].(time := RescaleTick(ts[i].time, tpb)))
  }

  /** Rescaling from 480 ticks per beat leaves every track as it was. */
  lemma RescaleInstrumentsCanonical(insts: seq<Instrument>)
    ensures RescaleInstruments(insts, BeatResol) == insts
  {
    forall i, j | 0 <= i < |insts| && 0 <= j < |insts[i].notes|
      ensures RescaleNote(insts[i].notes[j], BeatResol) == insts[i].notes[j]
    {
      RescaleCanonical(insts[i].notes[j].start);
      RescaleCanonical(insts[i].notes[j].end);
    }
    forall i | 0 <= i < |insts| ensures RescaleInstrument(insts[i], BeatResol) == insts[i] {
      assert RescaleInstrument(insts[i], BeatResol).notes == insts[i].notes;
    }
  }

  /** Rescaling with a positive resolution keeps every note's pitch and keeps notes
      that were in onset order in onset order. */
  lemma RescaleKeepsOrder(inst: Instrument, tpb: int, j1: int, j2: int)
    requires tpb > 0
    requires 0 <= j1 < |inst.notes| && 0 <= j2 < |inst.notes|
    requires inst.notes[j1].start <= inst.notes[j2].start
    ensures RescaleInstrument(inst, tpb).notes[j1].start <= RescaleInstrument(inst, tpb).notes[j2].start
    ensures RescaleInstrument(inst, tpb).notes[j1].pitch == inst.notes[j1].pitch
  {
    RescaleMonotone(inst.notes[j1].start, inst.notes[j2].start, tpb);
  }

  /** A parsed MIDI file, which `_normalize_ticks_per_beat` updates in place. */
  class MidiFile {
    var ticksPerBeat: int
    var instruments: seq<Instrument>
    var tempoChanges: seq<TempoChange>
    var timeSignatures: seq<TimeSignature>

    constructor (tpb: int, insts: seq<Instrument>, tempos: seq<TempoChange>, sigs: seq<TimeSignature>)
      ensures ticksPerBeat == tpb && instruments == insts
      ensures tempoChanges == tempos && timeSignatures == sigs
    {
      ticksPerBeat, instruments := tpb, insts;
      tempoChanges, timeSignatures := tempos, sigs;
    }

    /** `_normalize_ticks_per_beat(midi)`. Returns false, changing nothing, where the
        source divides by a zero `ticks_per_beat`. Otherwise every note start and
        end, tempo-change time and time-signature time is rescaled to 480 ticks per
        beat and `ticksPerBeat` becomes 480; a file already at 480 is left alone. */
    method NormalizeTicksPerBeat() returns (ok: bool)
      modifies this
      ensures ok <==> old(ticksPerBeat) != 0
      ensures !ok || old(ticksPerBeat) == BeatResol ==> unchanged(this)
      ensures ok ==> ticksPerBeat == BeatResol
      ensures ok ==> instruments == RescaleInstruments(old(instruments), old(ticksPerBeat))
      ensures ok ==> tempoChanges == RescaleTempos(old(tempoChanges), old(ticksPerBeat))
      ensures ok ==> timeSignatures == RescaleSignatures(old(timeSignatures), old(ticksPerBeat))
    {
      var tpb := ticksPerBeat;
      if tpb == BeatResol {
        RescaleInstrumentsCanonical(instruments);
        forall i | 0 <= i < |tempoChanges| ensures tempoChanges[i].(time := RescaleTick(tempoChanges[i].time, tpb)) == tempoChanges[i] {
          RescaleCanonical(tempoChanges[i].time);
        }
        forall i | 0 <= i < |timeSignatures| ensures timeSignatures[i].(time := RescaleTick(timeSignatures[i].time, tpb)) == timeSignatures[i] {
          RescaleCanonical(timeSignatures[i].time);
        }
        return true;
      }
      if tpb == 0 {
        return false;
      }

      // notes
      var i := 0;
      while i < |instruments|
        invariant 0 <= i <= |instruments| == |old(instruments)|
        invariant forall k :: 0 <= k < i ==> instruments[k] == RescaleInstrument(old(instruments)[k], tpb)
        invariant forall k :: i <= k < |instruments| ==> instruments[k] == old(instruments)[k]
        invariant ticksPerBeat == tpb
        invariant tempoChanges == old(tempoChanges) && timeSignatures == old(timeSignatures)
      {
        var j := 0;
        ghost var before := instruments;
        while j < |instruments[i].notes|
          invariant |instruments| == |before| == |old(instruments)|
          invariant 0 <= j <= |instruments[i].notes| == |old(instruments)[i].notes|
          invariant forall k :: 0 <= k < |instruments| && k != i ==> instruments[k] == before[k]
          invariant instruments[i].isDrum == old(instruments)[i].isDrum
          invariant forall m :: 0 <= m < j ==> instruments[i].notes[m] == RescaleNote(old(instruments)[i].notes[m], tpb)
          invariant forall m :: j <= m < |instruments[i].notes| ==> instruments[i].notes[m] == old(instruments)[i].notes[m]
          invariant ticksPerBeat == tpb
          invariant tempoChanges == old(tempoChanges) && timeSignatures == old(timeSignatures)
        {
          var n := instruments[i].notes[j];
          var scaled := RescaleNote(n, tpb);
          instruments := instruments[i := instruments[i].(notes := instruments[i].notes[j := scaled])];
          j := j + 1;
        }
        assert instruments[i] == RescaleInstrument(old(instruments)[i], tpb);
        i := i + 1;
      }

      // tempo changes
      i := 0;
      while i < |tempoChanges|
        invariant 0 <= i <= |tempoChanges| == |old(tempoChanges)|
        invariant forall k :: 0 <= k < i ==> tempoChanges[k] == old(tempoChanges)[k].(time := RescaleTick(old(tempoChanges)[k].time, tpb))
        invariant forall k :: i <= k < |tempoChanges| ==> tempoChanges[k] == old(tempoChanges)[k]
        invariant ticksPerBeat == tpb
        invariant instruments == RescaleInstruments(old(instruments), tpb)
        invariant timeSignatures == old(timeSignatures)
      {
        tempoChanges := tempoChanges[i := tempoChanges[i].(time := RescaleTick(tempoChanges[i].time, tpb))];
        i := i + 1;
      }

      // time signatures
      i := 0;
      while i < |timeSignatures|
        invariant 0 <= i <= |timeSignatures| == |old(timeSignatures)|
        invariant forall k :: 0 <= k < i ==> timeSignatures[k] == old(timeSignatures)[k].(time := RescaleTick(old(timeSignatures)[k].time, tpb))
        invariant forall k :: i <= k < |timeSignatures| ==> timeSignatures[k] == old(timeSignatures)[k]
        invariant ticksPerBeat == tpb
        invariant instruments == RescaleInstruments(old(instruments), tpb)
        invariant tempoChanges == RescaleTempos(old(tempoChanges), tpb)
      {
        timeSignatures := timeSignatures[i := timeSignatures[i].(time := RescaleTick(timeSignatures[i].time, tpb))];
        i := i + 1;
      }

      ticksPerBeat := BeatResol;
      ok := true;
    }
  }
}
