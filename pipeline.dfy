/** The conversion `main` performs between reading the MIDI file and writing the
    event file: load the melody, estimate the song length, quantise, encode. */
module Pipeline {
  import opened Wrappers
  import opened Text
  import opened Sorting
  import opened Timing
  import opened Midi
  import opened Melody
  import opened Quantizer
  import opened Encoder
  import opened Decoder

  datatype ConvertError = LoadFailed(load: LoadError) | EncodeFailed(encode: EncodeError)

  /** The quantised melody of a parsed file, if it loads. */
  function QuantizedMelody(tpb: int, insts: seq<Instrument>): (r: Result<seq<QNote>, LoadError>)
    ensures r.Failure? <==> MelodyNotes(tpb, insts).Failure?
    ensures r.Success? ==> SortedBy(r.value, QKey) && |r.value| <= |MelodyNotes(tpb, insts).value|
    ensures r.Success? ==>
      && |MelodyNotes(tpb, insts).value| > 0
      && r.value == Quantized(MelodyNotes(tpb, insts).value, EstimateLastBar(MelodyNotes(tpb, insts).value))
  {
    match MelodyNotes(tpb, insts)
    case Failure(e) => Failure(e)
    case Success(notes) => Success(Quantized(notes, EstimateLastBar(notes)))
  }

  /** What the conversion produces for a parsed file with the given time base and
      tracks, key argument, key table and emotion argument. */
  function Convert(tpb: int, insts: seq<Instrument>, key: string, kt: KeyTable, emotion: Option<string>)
    : (r: Result<seq<Event>, ConvertError>)
    ensures r.Failure? && r.error.LoadFailed? <==> MelodyNotes(tpb, insts).Failure?
    ensures r.Failure? && r.error.EncodeFailed? <==>
              MelodyNotes(tpb, insts).Success? && Strip(key) !in kt.majorKeys && Strip(key) !in kt.minorKeys
  {
    match QuantizedMelody(tpb, insts)
    case Failure(e) => Failure(LoadFailed(e))
    case Success(q) =>
      match MelodyEvents(q, key, kt, emotion, true, true)
      case Failure(e) => Failure(EncodeFailed(e))
      case Success(events) => Success(events)
  }

  /** `load_melody_notes`, `estimate_last_bar`, `quantize_notes` and
      `build_melody_events` in turn, as `main` calls them (track tokens and
      `EOS_None` on). */
  method ConvertMidi(midi: MidiFile, key: string, kt: KeyTable, emotion: Option<string>)
    returns (r: Result<seq<Event>, ConvertError>)
    modifies midi
    ensures r == Convert(old(midi.ticksPerBeat), old(midi.instruments), key, kt, emotion)
    ensures old(midi.ticksPerBeat) == 0 ==> unchanged(midi)
    ensures old(midi.ticksPerBeat) != 0 ==>
      && midi.ticksPerBeat == BeatResol
      && midi.instruments == RescaleInstruments(old(midi.instruments), old(midi.ticksPerBeat))
      && midi.tempoChanges == RescaleTempos(old(midi.tempoChanges), old(midi.ticksPerBeat))
      && midi.timeSignatures == RescaleSignatures(old(midi.timeSignatures), old(midi.ticksPerBeat))
  {
    var loaded := LoadMelodyNotes(midi);
    if loaded.Failure? {
      return Failure(LoadFailed(loaded.error));
    }
    var notes := loaded.value;
    var lastBar := EstimateLastBar(notes);
    var qNotes := QuantizeNotes(notes, lastBar);
    var events := BuildMelodyEvents(qNotes, key, kt, emotion, true, true);
    if events.Failure? {
      return Failure(EncodeFailed(events.error));
    }
    r := Success(events.value);
  }

  /** A list sorted by (start, pitch) is sorted by start. */
  lemma SortedStarts(q: seq<QNote>)
    requires SortedBy(q, QKey)
    ensures StartsSorted(q)
  {
    forall i, j | 0 <= i < j < |q| ensures q[i].start <= q[j].start {
      SortedPairwise(q, QKey, i, j);
    }
  }

  /** The bars the encoder emits for quantised notes fit in the song length the
      quantiser was given. */
  lemma BarsWithinSong(q: seq<QNote>, lastBar: int)
    requires |q| > 0
    requires forall k :: 0 <= k < |q| ==> OnGrid(q[k], lastBar)
    ensures NBars(q) <= lastBar
  {
    var n := NBars(q);
    if n > 1 {
      var k :| 0 <= k < |q| && q[k].start + q[k].dur > (n - 1) * BarResol;
      assert (n - 1) * BarResol < lastBar * BarResol;
    }
  }

  /** `d` lists the notes of `q` in order, each at its own start, with its duration
      and the octave and degree of its pitch in `key`. */
  predicate DecodesTo(d: seq<DecodedNote>, q: seq<QNote>, kt: KeyTable, key: string) {
    && |d| == |q|
    && forall i :: 0 <= i < |q| ==>
         d[i] == DecodedNote(q[i].start, q[i].dur, kt.pitchToDegree(key, q[i].pitch).0, kt.pitchToDegree(key, q[i].pitch).1)
  }

  /** Encoding quantised notes and decoding the events gives the notes back exactly,
      and the bars emitted fit in the song length they were quantised to. */
  lemma QuantizedRoundTrip(q: seq<QNote>, lastBar: int, key: string, kt: KeyTable, emotion: Option<string>)
    requires SortedBy(q, QKey)
    requires forall k :: 0 <= k < |q| ==> OnGrid(q[k], lastBar)
    requires MelodyEvents(q, key, kt, emotion, true, true).Success?
    ensures DecodesTo(Decode(MelodyEvents(q, key, kt, emotion, true, true).value), q, kt, Strip(key))
    ensures CountBars(MelodyEvents(q, key, kt, emotion, true, true).value) <= Max(lastBar, 0)
  {
    SortedStarts(q);
    EncodeDecode(q, key, kt, emotion, true, true);
    MelodyEventsBars(q, key, kt, emotion, true, true);
    if q != [] {
      BarsWithinSong(q, lastBar);
    }
  }

  /** End to end: a converted file's events decode to exactly its quantised melody,
      every note at its own grid start, and hold one `Bar_None` per bar of a song no
      longer than the estimated length. */
  lemma ConvertRoundTrip(tpb: int, insts: seq<Instrument>, key: string, kt: KeyTable, emotion: Option<string>)
    requires Convert(tpb, insts, key, kt, emotion).Success?
    ensures QuantizedMelody(tpb, insts).Success?
    ensures DecodesTo(Decode(Convert(tpb, insts, key, kt, emotion).value), QuantizedMelody(tpb, insts).value, kt, Strip(key))
    ensures CountBars(Convert(tpb, insts, key, kt, emotion).value) <= EstimateLastBar(MelodyNotes(tpb, insts).value)
  {
    var notes := MelodyNotes(tpb, insts).value;
    var lastBar := EstimateLastBar(notes);
    var q := Quantized(notes, lastBar);
    assert QuantizedMelody(tpb, insts).value == q;
    assert MelodyEvents(q, key, kt, emotion, true, true).value == Convert(tpb, insts, key, kt, emotion).value;
    QuantizedRoundTrip(q, lastBar, key, kt, emotion);
  }
}
