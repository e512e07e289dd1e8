/** `load_melody_notes`: after the time base is normalised, the first non-drum track
    is taken as the melody, its notes are sorted by (start, pitch), and one forward
    pass cuts each note's end back to the next note's start. */
module Melody {
  import opened Wrappers
  import opened Sorting
  import opened Timing
  import opened Midi

  /** The three ways `load_melody_notes` fails once the file is parsed: the division
      by a zero `ticks_per_beat`, and the two `ValueError`s it raises itself. */
  datatype LoadError = ZeroTicksPerBeat | NoInstruments | NoNotes

  /** The melody is sorted by `(n.start, n.pitch)`. */
  function NoteKey(n: Note): Key { Key(n.start, n.pitch) }

  /** Notes compare as the tuples `(start, pitch)` do: by start, then by pitch. */
  lemma NoteKeyOrder(a: Note, b: Note)
    ensures KeyLe(NoteKey(a), NoteKey(b)) <==> a.start < b.start || (a.start == b.start && a.pitch <= b.pitch)
  {
  }

  /** The first track whose drum flag is off, if there is one. */
  function FirstNonDrum(insts: seq<Instrument>): (r: Option<nat>)
    ensures r.Some? ==> r.value < |insts| && !insts[r.value].isDrum
    ensures r.Some? ==> forall k :: 0 <= k < r.value ==> insts[k].isDrum
    ensures r.None? ==> forall k :: 0 <= k < |insts| ==> insts[k].isDrum
  {
    if insts == [] then None
    else if !insts[0].isDrum then Some(0)
    else match FirstNonDrum(insts[1..])
      case None => None
      case Some(k) => Some(k + 1)
  }

  /** The track `load_melody_notes` takes as the melody: the first non-drum track,
      or track 0 when all of them are drum tracks. */
  function MelodyTrackIndex(insts: seq<Instrument>): (idx: nat)
    requires |insts| > 0
    ensures idx < |insts|
    ensures !insts[idx].isDrum ==> forall k :: 0 <= k < idx ==> insts[k].isDrum
    ensures insts[idx].isDrum ==> idx == 0 && forall k :: 0 <= k < |insts| ==> insts[k].isDrum
  {
    match FirstNonDrum(insts)
    case Some(k) => k
    case None => 0
  }

  /** The `for track in midi.instruments: if not track.is_drum: ... break` loop with
      its fallback to `midi.instruments[0]`, run after the emptiness check. */
  method SelectMelodyTrack(insts: seq<Instrument>) returns (idx: nat)
    requires |insts| > 0
    ensures idx == MelodyTrackIndex(insts)
  {
    var i := 0;
    while i < |insts| && insts[i].isDrum
      invariant 0 <= i <= |insts|
      invariant forall k :: 0 <= k < i ==> insts[k].isDrum
    {
      i := i + 1;
    }
    if i == |insts| {
      idx := 0;
    } else {
      idx := i;
    }
  }

  /** The notes after the monophony pass: the end of each note that overlaps the
      next one is cut back to the next note's start; nothing else changes. */
  function Monophonic(s: seq<Note>): (r: seq<Note>)
    ensures |r| == |s|
    ensures forall i :: 0 <= i < |s| ==> r[i].start == s[i].start && r[i].pitch == s[i].pitch
    ensures forall i :: 0 <= i < |s| ==> r[i].end <= s[i].end
    ensures forall i :: 0 <= i < |s| - 1 ==> r[i].end <= r[i + 1].start
    ensures forall i :: 0 <= i < |s| - 1 ==> r[i].end == s[i].end || r[i].end == s[i + 1].start
    ensures |s| > 0 ==> r[|s| - 1] == s[|s| - 1]
  {
    seq(|s|, i requires 0 <= i < |s| => Cut(s, i))
  }

  /** Note `i` after the pass: the same start and pitch, and an end cut back to
      the next note's start exactly when it overlaps that note. */
  function Cut(s: seq<Note>, i: nat): (r: Note)
    requires i < |s|
    ensures r.start == s[i].start && r.pitch == s[i].pitch
    ensures r.end <= s[i].end
    ensures i + 1 < |s| ==> r.end <= s[i + 1].start
    ensures r.end != s[i].end ==> i + 1 < |s| && r.end == s[i + 1].start
  {
    if i + 1 < |s| && s[i].end > s[i + 1].start then s[i].(end := s[i + 1].start) else s[i]
  }

  /** The monophony pass keeps the (start, pitch) order. */
  lemma MonophonicSorted(s: seq<Note>)
    requires SortedBy(s, NoteKey)
    ensures SortedBy(Monophonic(s), NoteKey)
  {
    var r := Monophonic(s);
    forall i | 0 < i < |r| ensures KeyLe(NoteKey(r[i - 1]), NoteKey(r[i])) {
      assert NoteKey(r[i - 1]) == NoteKey(s[i - 1]) && NoteKey(r[i]) == NoteKey(s[i]);
    }
  }

  /** On sorted input the single pass over adjacent pairs is enough: every note ends
      no later than EVERY later note starts, not only the next one. */
  lemma {:induction false} MonophonicNoOverlap(s: seq<Note>, i: int, j: int)
    requires SortedBy(s, NoteKey)
    requires 0 <= i < j < |s|
    ensures Monophonic(s)[i].end <= Monophonic(s)[j].start
  {
    var r := Monophonic(s);
    if i + 1 < j {
      SortedPairwise(s, NoteKey, i + 1, j);
    }
  }

  /** Both facts together, for sorted input. */
  lemma MonophonicMelody(s: seq<Note>)
    requires SortedBy(s, NoteKey)
    ensures SortedBy(Monophonic(s), NoteKey)
    ensures forall i, j :: 0 <= i < j < |s| ==> Monophonic(s)[i].end <= Monophonic(s)[j].start
  {
    MonophonicSorted(s);
    forall i, j | 0 <= i < j < |s| ensures Monophonic(s)[i].end <= Monophonic(s)[j].start {
      MonophonicNoOverlap(s, i, j);
    }
  }

  /** The forward loop `for i in range(len(notes) - 1)` over the sorted notes. */
  method MakeMonophonic(a: array<Note>)
    modifies a
    ensures a[..] == Monophonic(old(a[..]))
  {
    ghost var s := a[..];
    var i := 0;
    while i + 1 < a.Length
      invariant 0 <= i <= a.Length
      invariant forall k :: 0 <= k < i ==> a[k] == Cut(s, k)
      invariant forall k :: i <= k < a.Length ==> a[k] == s[k]
    {
      if a[i].end > a[i + 1].start {
        a[i] := a[i].(end := a[i + 1].start);
      }
      i := i + 1;
    }
    assert forall k :: 0 <= k < a.Length ==> a[k] == Cut(s, k);
    assert a[..] == Monophonic(s);
  }

  /** What `load_melody_notes` returns for a parsed file with the given time base
      and tracks. */
  function MelodyNotes(tpb: int, insts: seq<Instrument>): (r: Result<seq<Note>, LoadError>)
    ensures r == Failure(ZeroTicksPerBeat) <==> tpb == 0
    ensures r == Failure(NoInstruments) <==> tpb != 0 && insts == []
    ensures r.Success? ==> |r.value| > 0 && SortedBy(r.value, NoteKey)
    ensures r.Success? ==> forall i, j :: 0 <= i < j < |r.value| ==> r.value[i].end <= r.value[j].start
  {
    if tpb == 0 then Failure(ZeroTicksPerBeat)
    else
      var scaled := RescaleInstruments(insts, tpb);
      if scaled == [] then Failure(NoInstruments)
      else
        var notes := SortBy(scaled[MelodyTrackIndex(scaled)].notes, NoteKey);
        if notes == [] then Failure(NoNotes)
        else
          MonophonicMelody(notes);
          Success(Monophonic(notes))
  }

  /** The melody is a (start, pitch)-sorted rearrangement of the chosen track's
      rescaled notes with only some ends cut back. */
  lemma MelodyNotesFromTrack(tpb: int, insts: seq<Instrument>)
    requires MelodyNotes(tpb, insts).Success?
    ensures var scaled := RescaleInstruments(insts, tpb);
            var sorted := SortBy(scaled[MelodyTrackIndex(scaled)].notes, NoteKey);
            && multiset(sorted) == multiset(scaled[MelodyTrackIndex(scaled)].notes)
            && MelodyNotes(tpb, insts).value == Monophonic(sorted)
  {
    var scaled := RescaleInstruments(insts, tpb);
    SortByPermutation(scaled[MelodyTrackIndex(scaled)].notes, NoteKey);
  }

  /** `load_melody_notes(midi_path)` from the point the file is parsed: normalises
      `midi` in place, then selects, sorts and cuts the melody. */
  method LoadMelodyNotes(midi: MidiFile) returns (r: Result<seq<Note>, LoadError>)
    modifies midi
    ensures r == MelodyNotes(old(midi.ticksPerBeat), old(midi.instruments))
    ensures r == Failure(ZeroTicksPerBeat) ==> unchanged(midi)
    ensures r != Failure(ZeroTicksPerBeat) ==>
      && midi.ticksPerBeat == BeatResol
      && midi.instruments == RescaleInstruments(old(midi.instruments), old(midi.ticksPerBeat))
      && midi.tempoChanges == RescaleTempos(old(midi.tempoChanges), old(midi.ticksPerBeat))
      && midi.timeSignatures == RescaleSignatures(old(midi.timeSignatures), old(midi.ticksPerBeat))
  {
    ghost var spec := MelodyNotes(midi.ticksPerBeat, midi.instruments);
    ghost var tpb, insts := midi.ticksPerBeat, midi.instruments;
    var ok := midi.NormalizeTicksPerBeat();
    if !ok {
      return Failure(ZeroTicksPerBeat);
    }
    var scaled := midi.instruments;
    assert scaled == RescaleInstruments(insts, tpb);
    if |scaled| == 0 {
      return Failure(NoInstruments);
    }
    var idx := SelectMelodyTrack(scaled);
    var notes := SortBy(scaled[idx].notes, NoteKey);
    if |notes| == 0 {
      return Failure(NoNotes);
    }
    assert spec == Success(Monophonic(notes));
    var a := new Note[|notes|](i requires 0 <= i < |notes| => notes[i]);
    assert a[..] == notes;
    MakeMonophonic(a);
    r := Success(a[..]);
  }
}
