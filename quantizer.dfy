/** `quantize_notes` and `estimate_last_bar`: snapping the melody to the sixteenth
    grid and clipping it to a song of `last_bar` bars. */
module Quantizer {
  import opened Wrappers
  import opened Sorting
  import opened Timing
  import opened Midi

  /** A quantised note, the tuple `(start_tick, duration, pitch)`. */
  datatype QNote = QNote(start: int, dur: int, pitch: int)

  /** `quantized.sort(key=lambda x: (x[0], x[2]))`. */
  function QKey(q: QNote): Key { Key(q.start, q.pitch) }

  /** Quantised notes compare as `(x[0], x[2])` does: by start, then by pitch; the
      duration plays no part. */
  lemma QKeyOrder(a: QNote, b: QNote)
    ensures KeyLe(QKey(a), QKey(b)) <==> a.start < b.start || (a.start == b.start && a.pitch <= b.pitch)
    ensures a.start == b.start && a.pitch == b.pitch ==> QKey(a) == QKey(b)
  {
  }

  function Max(a: int, b: int): int { if a < b then b else a }

  /** A note as the quantiser emits it for a song of `lastBar` bars: on the grid,
      at least one grid step long, and ending no later than the song. */
  predicate OnGrid(q: QNote, lastBar: int) {
    && q.start >= 0 && q.start % TickResol == 0
    && q.dur >= TickResol && q.dur % TickResol == 0
    && q.start + q.dur <= lastBar * BarResol
  }

  lemma SongEndOnGrid(lastBar: int)
    ensures (lastBar * BarResol) % TickResol == 0
  {
    assert BarResol == 1920 && TickResol == 120;
    assert lastBar * BarResol == (lastBar * 16) * 120;
  }

  /** The grid is closed under sums and differences. */
  lemma GridArith(a: int, b: int)
    requires a % TickResol == 0 && b % TickResol == 0
    ensures (a - b) % TickResol == 0 && (a + b) % TickResol == 0
  {
    assert TickResol == 120;
  }

  /** The body of the `for n in notes` loop for one note. The note is dropped exactly
      when its quantised start is at or past the song end, so the `dur <= 0` drop
      after clipping never happens; a kept note is on the grid, inside the song, at
      most as long as its unclipped duration and exactly that long when it fits. */
  function QuantizeNote(n: Note, lastBar: int): (r: Option<QNote>)
    ensures r.None? <==> QuantizeTick(n.start) >= lastBar * BarResol
    ensures r.Some? ==> OnGrid(r.value, lastBar)
    ensures r.Some? ==> r.value.start == QuantizeTick(n.start) && r.value.pitch == n.pitch
    ensures r.Some? ==> r.value.dur <= Max(TickResol, QuantizeTick(n.end) - QuantizeTick(n.start))
    ensures r.Some? && QuantizeTick(n.start) + Max(TickResol, QuantizeTick(n.end) - QuantizeTick(n.start)) <= lastBar * BarResol
            ==> r.value.dur == Max(TickResol, QuantizeTick(n.end) - QuantizeTick(n.start))
    ensures r.Some? && QuantizeTick(n.start) + Max(TickResol, QuantizeTick(n.end) - QuantizeTick(n.start)) > lastBar * BarResol
            ==> r.value.dur == lastBar * BarResol - QuantizeTick(n.start)
  {
    var qStart := QuantizeTick(n.start);
    var qEnd := QuantizeTick(n.end);
    var dur := Max(TickResol, qEnd - qStart);
    var songEnd := lastBar * BarResol;
    assert TickResol == 120;
    SongEndOnGrid(lastBar);
    GridArith(qEnd, qStart);
    GridArith(songEnd, qStart);
    if qStart >= songEnd then None
    else if qStart + dur > songEnd then
      var clipped := songEnd - qStart;
      if clipped <= 0 then None else Some(QNote(qStart, clipped, n.pitch))
    else Some(QNote(qStart, dur, n.pitch))
  }

  function OptionToSeq<T>(o: Option<T>): seq<T> {
    match o
    case None => []
    case Some(x) => [x]
  }

  lemma OptionToSeqMembers<T>(o: Option<T>, x: T)
    ensures x in OptionToSeq(o) <==> o == Some(x)
  {
  }

  /** The `quantized` list after the loop, before the sort: the kept notes in input
      order. */
  function QuantizeEach(notes: seq<Note>, lastBar: int): (r: seq<QNote>)
    ensures |r| <= |notes|
    ensures forall k :: 0 <= k < |r| ==> OnGrid(r[k], lastBar)
  {
    if notes == [] then []
    else QuantizeEach(notes[..|notes| - 1], lastBar) + OptionToSeq(QuantizeNote(notes[|notes| - 1], lastBar))
  }

  /** What `quantize_notes(notes, last_bar)` returns: at most as many notes as it was
      given, every one on the grid and inside the song, sorted by (start, pitch). */
  function Quantized(notes: seq<Note>, lastBar: int): (r: seq<QNote>)
    ensures |r| <= |notes|
    ensures SortedBy(r, QKey)
    ensures forall k :: 0 <= k < |r| ==> OnGrid(r[k], lastBar)
  {
    var each := QuantizeEach(notes, lastBar);
    var r := SortBy(each, QKey);
    SortByPermutation(each, QKey);
    forall k | 0 <= k < |r| ensures OnGrid(r[k], lastBar) {
      assert r[k] in multiset(each);
    }
    r
  }

  /** A note is kept exactly when it is what `QuantizeNote` makes of some input
      note. */
  lemma {:induction false} QuantizeEachMembers(notes: seq<Note>, lastBar: int)
    ensures forall x :: x in QuantizeEach(notes, lastBar) <==>
      exists k :: 0 <= k < |notes| && QuantizeNote(notes[k], lastBar) == Some(x)
  {
    forall x | x in QuantizeEach(notes, lastBar)
      ensures exists k :: 0 <= k < |notes| && QuantizeNote(notes[k], lastBar) == Some(x)
    {
      QuantizeEachFrom(notes, lastBar, x);
    }
    forall x, k | 0 <= k < |notes| && QuantizeNote(notes[k], lastBar) == Some(x)
      ensures x in QuantizeEach(notes, lastBar)
    {
      QuantizeEachKeeps(notes, lastBar, k);
    }
  }

  /** Every note in the list came from some input note. */
  lemma {:induction false} QuantizeEachFrom(notes: seq<Note>, lastBar: int, x: QNote)
    requires x in QuantizeEach(notes, lastBar)
    ensures exists k :: 0 <= k < |notes| && QuantizeNote(notes[k], lastBar) == Some(x)
  {
    var front := notes[..|notes| - 1];
    var q := QuantizeNote(notes[|notes| - 1], lastBar);
    assert QuantizeEach(notes, lastBar) == QuantizeEach(front, lastBar) + OptionToSeq(q);
    if x in QuantizeEach(front, lastBar) {
      QuantizeEachFrom(front, lastBar, x);
      var k :| 0 <= k < |front| && QuantizeNote(front[k], lastBar) == Some(x);
      assert notes[k] == front[k];
    } else {
      OptionToSeqMembers(q, x);
    }
  }

  /** Every input note that quantizes to something contributes it. */
  lemma {:induction false} QuantizeEachKeeps(notes: seq<Note>, lastBar: int, k: int)
    requires 0 <= k < |notes| && QuantizeNote(notes[k], lastBar).Some?
    ensures QuantizeNote(notes[k], lastBar).value in QuantizeEach(notes, lastBar)
  {
    var front := notes[..|notes| - 1];
    var q := QuantizeNote(notes[|notes| - 1], lastBar);
    assert QuantizeEach(notes, lastBar) == QuantizeEach(front, lastBar) + OptionToSeq(q);
    if k < |front| {
      assert front[k] == notes[k];
      QuantizeEachKeeps(front, lastBar, k);
    } else {
      OptionToSeqMembers(q, q.value);
    }
  }

  /** The loop keeps input order: quantising two runs of notes one after the other
      gives the two results one after the other. */
  lemma {:induction false} QuantizeEachAppend(a: seq<Note>, b: seq<Note>, lastBar: int)
    ensures QuantizeEach(a + b, lastBar) == QuantizeEach(a, lastBar) + QuantizeEach(b, lastBar)
  {
    if b == [] {
      assert a + b == a;
    } else {
      var front, last := b[..|b| - 1], b[|b| - 1];
      var kept := OptionToSeq(QuantizeNote(last, lastBar));
      assert (a + b)[..|a + b| - 1] == a + front && (a + b)[|a + b| - 1] == last;
      calc {
        QuantizeEach(a + b, lastBar);
        QuantizeEach(a + front, lastBar) + kept;
        { QuantizeEachAppend(a, front, lastBar); }
        QuantizeEach(a, lastBar) + QuantizeEach(front, lastBar) + kept;
        QuantizeEach(a, lastBar) + (QuantizeEach(front, lastBar) + kept);
      }
    }
  }

  /** The returned notes are the kept notes, sorted: the same multiset, and a note
      is returned exactly when `QuantizeNote` makes it of some input note. */
  lemma QuantizedMembers(notes: seq<Note>, lastBar: int)
    ensures multiset(Quantized(notes, lastBar)) == multiset(QuantizeEach(notes, lastBar))
    ensures forall x :: x in Quantized(notes, lastBar) <==>
              exists k :: 0 <= k < |notes| && QuantizeNote(notes[k], lastBar) == Some(x)
  {
    var each := QuantizeEach(notes, lastBar);
    SortByPermutation(each, QKey);
    QuantizeEachMembers(notes, lastBar);
    forall x ensures x in Quantized(notes, lastBar) <==> x in each {
      assert x in Quantized(notes, lastBar) <==> x in multiset(Quantized(notes, lastBar));
      assert x in each <==> x in multiset(each);
    }
  }

  /** One more note read by the loop. */
  lemma QuantizeEachNext(notes: seq<Note>, i: nat, lastBar: int)
    requires i < |notes|
    ensures QuantizeEach(notes[..i + 1], lastBar) == QuantizeEach(notes[..i], lastBar) + OptionToSeq(QuantizeNote(notes[i], lastBar))
  {
    assert notes[..i + 1][..i] == notes[..i];
  }

  /** `quantize_notes(notes, last_bar)`. */
  method QuantizeNotes(notes: seq<Note>, lastBar: int) returns (r: seq<QNote>)
    ensures r == Quantized(notes, lastBar)
  {
    var quantized: seq<QNote> := [];
    var songEnd := lastBar * BarResol;
    for i := 0 to |notes|
      invariant quantized == QuantizeEach(notes[..i], lastBar)
    {
      QuantizeEachNext(notes, i, lastBar);
      var n := notes[i];
      var qStart := QuantizeTick(n.start);
      var qEnd := QuantizeTick(n.end);
      var dur := Max(TickResol, qEnd - qStart);
      ghost var kept := QuantizeNote(n, lastBar);
      if qStart >= songEnd {
        assert kept == None;
        continue;
      }
      if qStart + dur > songEnd {
        dur := songEnd - qStart;
        if dur <= 0 {
          continue;
        }
      }
      assert kept == Some(QNote(qStart, dur, n.pitch));
      quantized := quantized + [QNote(qStart, dur, n.pitch)];
    }
    assert notes[..|notes|] == notes;
    r := SortBy(quantized, QKey);
  }

  /** A quantised note read back as a note: `end = start + duration`. */
  function AsNote(q: QNote): Note { Note(q.start, q.start + q.dur, q.pitch) }

  function AsNotes(qs: seq<QNote>): (r: seq<Note>)
    ensures |r| == |qs|
    ensures forall k :: 0 <= k < |qs| ==> r[k] == AsNote(qs[k])
  {
    seq(|qs|, k requires 0 <= k < |qs| => AsNote(qs[k]))
  }

  /** A note that is already on the grid and inside the song quantises to itself. */
  lemma QuantizeOnGridNote(q: QNote, lastBar: int)
    requires OnGrid(q, lastBar)
    ensures QuantizeNote(AsNote(q), lastBar) == Some(q)
  {
    QuantizeTickOnGrid(q.start);
    GridArith(q.start, q.dur);
    QuantizeTickOnGrid(q.start + q.dur);
  }

  lemma {:induction false} QuantizeEachOnGrid(qs: seq<QNote>, lastBar: int)
    requires forall k :: 0 <= k < |qs| ==> OnGrid(qs[k], lastBar)
    ensures QuantizeEach(AsNotes(qs), lastBar) == qs
  {
    if qs != [] {
      var front := qs[..|qs| - 1];
      assert AsNotes(qs)[..|qs| - 1] == AsNotes(front);
      QuantizeEachOnGrid(front, lastBar);
      QuantizeOnGridNote(qs[|qs| - 1], lastBar);
      assert qs == front + [qs[|qs| - 1]];
    }
  }

  /** Re-quantising notes that are on the grid and inside the song returns them
      unchanged apart from the sort. */
  lemma QuantizeOnGridIsSort(qs: seq<QNote>, lastBar: int)
    requires forall k :: 0 <= k < |qs| ==> OnGrid(qs[k], lastBar)
    ensures Quantized(AsNotes(qs), lastBar) == SortBy(qs, QKey)
  {
    QuantizeEachOnGrid(qs, lastBar);
  }

  /** Quantising is idempotent: running `quantize_notes` again on its own output,
      with the same `last_bar`, returns that output. */
  lemma QuantizeIdempotent(notes: seq<Note>, lastBar: int)
    ensures Quantized(AsNotes(Quantized(notes, lastBar)), lastBar) == Quantized(notes, lastBar)
  {
    var q := Quantized(notes, lastBar);
    QuantizeOnGridIsSort(q, lastBar);
    SortBySorted(q, QKey);
  }

  /** `max(n.end for n in notes)`. */
  function MaxEnd(notes: seq<Note>): (m: int)
    requires |notes| > 0
    ensures forall k :: 0 <= k < |notes| ==> notes[k].end <= m
    ensures exists k :: 0 <= k < |notes| && notes[k].end == m
  {
    if |notes| == 1 then notes[0].end
    else
      var m := MaxEnd(notes[1..]);
      assert forall k :: 1 <= k < |notes| ==> notes[k] == notes[1..][k - 1];
      if notes[0].end < m then m else notes[0].end
  }

  /** `estimate_last_bar(notes)`: the fewest bars, and at least one, that hold every
      note's end. */
  function EstimateLastBar(notes: seq<Note>): (lastBar: int)
    requires |notes| > 0
    ensures lastBar >= 1
    ensures forall k :: 0 <= k < |notes| ==> notes[k].end <= lastBar * BarResol
    ensures lastBar == 1 || exists k :: 0 <= k < |notes| && notes[k].end > (lastBar - 1) * BarResol
  {
    var lastEnd := MaxEnd(notes);
    Max(1, (lastEnd + BarResol - 1) / BarResol)
  }

  /** A note lying wholly inside the song is still dropped when its start rounds up
      onto the song end: one note from tick 1870 to 1900 gives a one-bar song and an
      empty quantised list. */
  lemma NoteRoundingOntoSongEndIsDropped()
    ensures EstimateLastBar([Note(1870, 1900, 60)]) == 1
    ensures Quantized([Note(1870, 1900, 60)], 1) == []
  {
    var n := Note(1870, 1900, 60);
    assert MaxEnd([n]) == 1900;
    QuantizeTickUnique(1870, 1920);
    assert QuantizeNote(n, 1) == None;
    assert [n][..0] == [];
  }
}
