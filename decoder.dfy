/** Reading notes back out of an event list, the partner of `build_melody_events`:
    `Bar_None` moves to the next bar, a Beat/Octave/Degree/Duration group is one note
    at `bar * 1920 + beat * 120`, and every other event is passed over. For notes
    sorted by start, with starts not negative and durations positive, decoding the
    encoder's output gives back every note once, in order, at its start rounded
    down to the sixteenth grid. */
module Decoder {
  import opened Wrappers
  import opened Text
  import opened Timing
  import opened Quantizer
  import opened Encoder

  /** A note as it can be read back from the events. */
  datatype DecodedNote = DecodedNote(start: int, dur: int, octave: int, roman: string)

  predicate IsGroup(e: seq<Event>) {
    |e| >= 4 && e[0].Beat? && e[1].NoteOctave? && e[2].NoteDegree? && e[3].NoteDuration?
  }

  function GroupNote(e: seq<Event>, bar: int): DecodedNote
    requires IsGroup(e)
  {
    DecodedNote(bar * BarResol + e[0].index * TickResol, e[3].ticks, e[1].octave, e[2].roman)
  }

  /** The notes in `e`, read with `bar` as the current bar. */
  function DecodeFrom(e: seq<Event>, bar: int): seq<DecodedNote>
    decreases |e|
  {
    if e == [] then []
    else if e[0] == BarNone then DecodeFrom(e[1..], bar + 1)
    else if IsGroup(e) then [GroupNote(e, bar)] + DecodeFrom(e[4..], bar)
    else DecodeFrom(e[1..], bar)
  }

  /** The notes of a whole event list; the first `Bar_None` opens bar 0. */
  function Decode(e: seq<Event>): seq<DecodedNote> {
    DecodeFrom(e, -1)
  }

  /** An event that stands alone: a bar marker or a header or tail event. */
  predicate Standalone(ev: Event) {
    ev.BarNone? || ev.Emotion? || ev.KeyName? || ev.TrackMelody? || ev.EosNone?
  }

  /** `e` splits into whole note groups and standalone events, so nothing after it
      can complete a group begun inside it. */
  predicate Closed(e: seq<Event>)
    decreases |e|
  {
    if e == [] then true
    else if IsGroup(e) then Closed(e[4..])
    else Standalone(e[0]) && Closed(e[1..])
  }

  lemma GroupBars(e: seq<Event>)
    requires IsGroup(e)
    ensures CountBars(e) == CountBars(e[4..])
  {
    assert e == e[..4] + e[4..];
    CountBarsAppend(e[..4], e[4..]);
    CountBarsNone(e[..4]);
  }

  /** Decoding a closed prefix and the rest separately, the rest starting after the
      prefix's bars, is decoding the whole. */
  lemma {:induction false} DecodeAppend(a: seq<Event>, b: seq<Event>, bar: int)
    requires Closed(a)
    ensures DecodeFrom(a + b, bar) == DecodeFrom(a, bar) + DecodeFrom(b, bar + CountBars(a))
    decreases |a|
  {
    if a == [] {
      assert a + b == b;
    } else if IsGroup(a) {
      GroupPrefix(a, b, bar);
      DecodeAppend(a[4..], b, bar);
      GroupBars(a);
    } else {
      SinglePrefix(a, b);
      var next := if a[0] == BarNone then bar + 1 else bar;
      assert DecodeFrom(a + b, bar) == DecodeFrom(a[1..] + b, next);
      DecodeAppend(a[1..], b, next);
    }
  }

  /** A note group at the front stays the front group whatever follows it. */
  lemma GroupPrefix(a: seq<Event>, b: seq<Event>, bar: int)
    requires IsGroup(a)
    ensures IsGroup(a + b) && (a + b)[4..] == a[4..] + b
    ensures DecodeFrom(a + b, bar) == [GroupNote(a, bar)] + DecodeFrom(a[4..] + b, bar)
  {
    var ab := a + b;
    assert ab[..4] == a[..4];
    assert ab[4..] == a[4..] + b;
  }

  /** A standalone front event does not begin a group whatever follows. */
  lemma SinglePrefix(a: seq<Event>, b: seq<Event>)
    requires a != [] && Standalone(a[0])
    ensures (a + b)[0] == a[0] && !IsGroup(a + b) && (a + b)[1..] == a[1..] + b
  {
    var ab := a + b;
    assert ab[1..] == a[1..] + b;
    assert ab[0] == a[0];
  }

  lemma {:induction false} ClosedAppend(a: seq<Event>, b: seq<Event>)
    requires Closed(a) && Closed(b)
    ensures Closed(a + b)
    decreases |a|
  {
    if a == [] {
      assert a + b == b;
    } else if IsGroup(a) {
      assert (a + b)[4..] == a[4..] + b;
      ClosedAppend(a[4..], b);
    } else {
      assert (a + b)[1..] == a[1..] + b;
      ClosedAppend(a[1..], b);
    }
  }

  /** Header and tail events are closed and decode to no notes. */
  lemma {:induction false} DecodeStandalone(e: seq<Event>, bar: int)
    requires forall i :: 0 <= i < |e| ==> e[i].Emotion? || e[i].KeyName? || e[i].TrackMelody? || e[i].EosNone?
    ensures Closed(e) && DecodeFrom(e, bar) == [] && CountBars(e) == 0
    decreases |e|
  {
    if e != [] {
      DecodeStandalone(e[1..], bar);
    }
  }

  /** Decoding a header, a closed body and a tail is decoding the body. */
  lemma DecodeFramed(header: seq<Event>, body: seq<Event>, tail: seq<Event>)
    requires forall i :: 0 <= i < |header| ==> header[i].Emotion? || header[i].KeyName? || header[i].TrackMelody?
    requires tail == [] || tail == [EosNone]
    requires Closed(body)
    ensures Decode(header + body + tail) == Decode(body)
  {
    DecodeStandalone(header, -1);
    DecodeStandalone(tail, -1 + CountBars(body));
    assert header + body + tail == header + (body + tail);
    DecodeAppend(header, body + tail, -1);
    DecodeAppend(body, tail, -1);
  }

  /** A note as `Decode` reads it back: its start rounded down to the grid, its
      duration, and the octave and degree the key table gives for its pitch. */
  function Decoded(n: QNote, kt: KeyTable, key: string): DecodedNote {
    var degree := kt.pitchToDegree(key, n.pitch);
    DecodedNote(n.start - n.start % TickResol, n.dur, degree.0, degree.1)
  }

  function Expected(ns: seq<QNote>, kt: KeyTable, key: string): (r: seq<DecodedNote>)
    ensures |r| == |ns|
    ensures forall i :: 0 <= i < |ns| ==> r[i] == Decoded(ns[i], kt, key)
  {
    seq(|ns|, i requires 0 <= i < |ns| => Decoded(ns[i], kt, key))
  }

  lemma ExpectedAppend(a: seq<QNote>, b: seq<QNote>, kt: KeyTable, key: string)
    ensures Expected(a + b, kt, key) == Expected(a, kt, key) + Expected(b, kt, key)
  {
  }

  /** The notes up to `j` read as those up to `i` followed by those from `i` to `j`. */
  lemma ExpectedSplit(notes: seq<QNote>, i: nat, j: nat, kt: KeyTable, key: string)
    requires i <= j <= |notes|
    ensures Expected(notes[..j], kt, key) == Expected(notes[..i], kt, key) + Expected(notes[i..j], kt, key)
  {
    assert notes[..j] == notes[..i] + notes[i..j];
    ExpectedAppend(notes[..i], notes[i..j], kt, key);
  }

  predicate StartsSorted(ns: seq<QNote>) {
    forall i, j :: 0 <= i < j < |ns| ==> ns[i].start <= ns[j].start
  }

  /** Every note from index `j` on starts at or after tick `t`. */
  predicate StartsFrom(ns: seq<QNote>, j: int, t: int) {
    forall m :: 0 <= j <= m < |ns| ==> ns[m].start >= t
  }

  /** The beat index of a note in its bar, scaled back, is its start rounded down to
      the grid. */
  lemma BeatFloor(s: int, bar: int)
    requires s >= bar * BarResol
    ensures bar * BarResol + ((s - bar * BarResol) / TickResol) * TickResol == s - s % TickResol
  {
    var x := s - bar * BarResol;
    var m := bar * 16;
    assert TickResol == 120 && BarResol == 1920;
    assert bar * BarResol == m * 120;
    assert x == (x / 120) * 120 + x % 120;
    assert s == (x / 120 + m) * 120 + x % 120;
    assert s % 120 == x % 120;
  }

  /** One note's four events decode to that note. */
  lemma DecodeNoteEvents(n: QNote, bar: int, kt: KeyTable, key: string, rest: seq<Event>)
    requires bar * BarResol <= n.start
    ensures DecodeFrom(NoteEvents(n, bar * BarResol, kt, key) + rest, bar)
            == [Decoded(n, kt, key)] + DecodeFrom(rest, bar)
    ensures Closed(rest) ==> Closed(NoteEvents(n, bar * BarResol, kt, key) + rest)
  {
    var e := NoteEvents(n, bar * BarResol, kt, key) + rest;
    assert e[4..] == rest;
    BeatFloor(n.start, bar);
  }

  /** For sorted notes none of which starts before the bar, the inner loop emits the
      notes that start inside the bar, each decoded once, and leaves the pointer on
      the first note starting at or after the bar's end. */
  lemma {:induction false} BarStepRun(notes: seq<QNote>, kt: KeyTable, key: string, idx: nat, bar: int)
    requires StartsSorted(notes) && idx <= |notes|
    requires StartsFrom(notes, idx, bar * BarResol)
    ensures var r := BarStep(notes, kt, key, idx, bar * BarResol);
            && Closed(r.0)
            && DecodeFrom(r.0, bar) == Expected(notes[idx..r.1], kt, key)
            && StartsFrom(notes, r.1, (bar + 1) * BarResol)
    decreases |notes| - idx
  {
    var r := BarStep(notes, kt, key, idx, bar * BarResol);
    assert (bar + 1) * BarResol == bar * BarResol + BarResol;
    if idx < |notes| && notes[idx].start < bar * BarResol + BarResol {
      var n := notes[idx];
      var rest := BarStep(notes, kt, key, idx + 1, bar * BarResol);
      BarStepRun(notes, kt, key, idx + 1, bar);
      DecodeNoteEvents(n, bar, kt, key, rest.0);
      assert notes[idx..r.1] == [n] + notes[idx + 1..r.1];
    } else {
      assert notes[idx..r.1] == [];
    }
  }

  /** What holds of the bar loop after `k` bars: the events are closed, decode to
      the notes the pointer has passed, and every note not yet passed starts at or
      after bar `k`. */
  predicate WalkInv(notes: seq<QNote>, kt: KeyTable, key: string, k: nat) {
    var r := Walk(notes, kt, key, k);
    && Closed(r.0)
    && DecodeFrom(r.0, -1) == Expected(notes[..r.1], kt, key)
    && StartsFrom(notes, r.1, k * BarResol)
  }

  lemma {:induction false} WalkRun(notes: seq<QNote>, kt: KeyTable, key: string, k: nat)
    requires StartsSorted(notes) && StartsFrom(notes, 0, 0)
    ensures WalkInv(notes, kt, key, k)
  {
    if k > 0 {
      WalkRun(notes, kt, key, k - 1);
      WalkStep(notes, kt, key, k);
    } else {
      assert notes[..0] == [];
    }
  }

  /** A `Bar_None` followed by the events of bar `bar` read, from the bar before,
      as the notes the inner loop passed. */
  lemma BarOpened(notes: seq<QNote>, kt: KeyTable, key: string, idx: nat, bar: int)
    requires StartsSorted(notes) && idx <= |notes|
    requires StartsFrom(notes, idx, bar * BarResol)
    ensures var r := BarStep(notes, kt, key, idx, bar * BarResol);
            && Closed([BarNone] + r.0)
            && DecodeFrom([BarNone] + r.0, bar - 1) == Expected(notes[idx..r.1], kt, key)
            && StartsFrom(notes, r.1, (bar + 1) * BarResol)
  {
    var r := BarStep(notes, kt, key, idx, bar * BarResol);
    BarStepRun(notes, kt, key, idx, bar);
    var tail := [BarNone] + r.0;
    assert tail[1..] == r.0;
  }

  /** One more round of the bar loop keeps `WalkInv`. */
  lemma WalkStep(notes: seq<QNote>, kt: KeyTable, key: string, k: nat)
    requires k > 0
    requires StartsSorted(notes)
    requires WalkInv(notes, kt, key, k - 1)
    ensures WalkInv(notes, kt, key, k)
  {
    var before := Walk(notes, kt, key, k - 1);
    var step := BarStep(notes, kt, key, before.1, (k - 1) * BarResol);
    var tail := [BarNone] + step.0;
    assert Walk(notes, kt, key, k) == (before.0 + tail, step.1);
    BarOpened(notes, kt, key, before.1, k - 1);
    WalkEvents(notes, kt, key, k - 1);
    DecodeAppend(before.0, tail, -1);
    ClosedAppend(before.0, tail);
    ExpectedSplit(notes, before.1, step.1, kt, key);
  }

  /** A pointer past which every note starts at or after `t`, when every note ends
      by `t` and lasts a positive time, has passed every note. */
  lemma AllPassed(notes: seq<QNote>, j: int, t: int)
    requires 0 <= j <= |notes| && StartsFrom(notes, j, t)
    requires forall m :: 0 <= m < |notes| ==> notes[m].start + notes[m].dur <= t && notes[m].dur > 0
    ensures j == |notes|
  {
    var n := NoteAt(notes, j);
    assert j < |notes| ==> n.start >= t && n.start + n.dur <= t && n.dur > 0;
  }

  /** `notes[j]`, or a placeholder past the end. */
  ghost function NoteAt(notes: seq<QNote>, j: int): QNote {
    if 0 <= j < |notes| then notes[j] else QNote(0, 0, 0)
  }

  /** The round trip: for notes sorted by start, with starts not negative and
      durations positive, decoding the events `build_melody_events` emits gives every
      note exactly once, in order, at its start rounded down to the grid (its bar
      times 1920 plus its beat index times 120), with its duration and the octave and
      degree of its pitch in the stripped key. */
  lemma EncodeDecode(notes: seq<QNote>, key: string, kt: KeyTable, emotion: Option<string>,
                     addTrack: bool, addEos: bool)
    requires MelodyEvents(notes, key, kt, emotion, addTrack, addEos).Success?
    requires StartsSorted(notes)
    requires forall m :: 0 <= m < |notes| ==> notes[m].start >= 0 && notes[m].dur > 0
    ensures Decode(MelodyEvents(notes, key, kt, emotion, addTrack, addEos).value) == Expected(notes, kt, Strip(key))
  {
    var k := Strip(key);
    MelodyEventsParts(notes, key, kt, emotion, addTrack, addEos);
    BodyDecodes(notes, kt, k);
    DecodeFramed(Header(k, emotion, addTrack), Body(notes, kt, k), if addEos then [EosNone] else []);
  }

  /** The bars part alone is closed and reads back as every note. */
  lemma BodyDecodes(notes: seq<QNote>, kt: KeyTable, key: string)
    requires StartsSorted(notes)
    requires forall m :: 0 <= m < |notes| ==> notes[m].start >= 0 && notes[m].dur > 0
    ensures Closed(Body(notes, kt, key)) && DecodeFrom(Body(notes, kt, key), -1) == Expected(notes, kt, key)
  {
    if notes != [] {
      var w := Walk(notes, kt, key, NBars(notes));
      WalkRun(notes, kt, key, NBars(notes));
      AllPassed(notes, w.1, NBars(notes) * BarResol);
      assert notes[..w.1] == notes;
    }
  }
}
