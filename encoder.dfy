/** `build_melody_events`: the quantised melody as an EMOPIA event list (an optional
    emotion token, the key, an optional track token, then bar by bar a `Bar_None`
    followed by four events per note, and an optional `EOS_None`), and a decoder
    that reads the notes back out of such a list. */
module Encoder {
  import opened Wrappers
  import opened Text
  import opened Timing
  import opened Quantizer

  /** One event of the list; `Token` below gives its text. */
  datatype Event =
    | Emotion(token: string)
    | KeyName(key: string)
    | TrackMelody
    | BarNone
    | Beat(index: int)
    | NoteOctave(octave: int)
    | NoteDegree(roman: string)
    | NoteDuration(ticks: int)
    | EosNone

  /** The key names `MAJOR_KEY` and `MINOR_KEY` and the mapping `pitch2degree` from a
      key and a pitch to an octave and a roman-numeral degree. They come from the
      EMOPIA key module, which is not part of this model, so they are a parameter. */
  datatype KeyTable = KeyTable(
    majorKeys: seq<string>,
    minorKeys: seq<string>,
    pitchToDegree: (string, int) -> (int, string))

  /** The `ValueError` for a key in neither table; it lists the keys that are. */
  datatype EncodeError = UnsupportedKey(key: string, choices: seq<string>)

  const EmotionPrefix: string := "Emotion_"

  /** The emotion token: the `Emotion_` prefix is added only when it is missing, so
      normalising a token that is already normalised leaves it as it is. */
  function NormalizeEmotion(emotion: string): (token: string)
    ensures EmotionPrefix <= token
    ensures EmotionPrefix <= emotion ==> token == emotion
    ensures !(EmotionPrefix <= emotion) ==> token[|EmotionPrefix|..] == emotion
  {
    if EmotionPrefix <= emotion then emotion else EmotionPrefix + emotion
  }

  /** The events before the first bar. */
  function Header(key: string, emotion: Option<string>, addTrack: bool): (h: seq<Event>)
    ensures |h| == (if emotion.Some? then 1 else 0) + 1 + (if addTrack then 1 else 0)
    ensures emotion.Some? ==> h[0] == Emotion(NormalizeEmotion(emotion.value))
    ensures h[if emotion.Some? then 1 else 0] == KeyName(key)
    ensures addTrack ==> h[|h| - 1] == TrackMelody
    ensures forall i :: 0 <= i < |h| ==> h[i].Emotion? || h[i].KeyName? || h[i].TrackMelody?
  {
    (if emotion.Some? then [Emotion(NormalizeEmotion(emotion.value))] else [])
    + [KeyName(key)]
    + (if addTrack then [TrackMelody] else [])
  }

  /** The four events for one note of the bar starting at `barStart`: the sixteenth
      index of its start inside the bar, its octave and degree in `key`, and its
      duration. */
  function NoteEvents(n: QNote, barStart: int, kt: KeyTable, key: string): (r: seq<Event>)
    ensures |r| == 4 && r[0].Beat? && r[1].NoteOctave? && r[2].NoteDegree? && r[3].NoteDuration?
    ensures r[0].index * TickResol <= n.start - barStart < r[0].index * TickResol + TickResol
    ensures barStart <= n.start < barStart + BarResol ==> 0 <= r[0].index < 16
    ensures (r[1].octave, r[2].roman) == kt.pitchToDegree(key, n.pitch) && r[3].ticks == n.dur
  {
    var degree := kt.pitchToDegree(key, n.pitch);
    [Beat((n.start - barStart) / TickResol), NoteOctave(degree.0), NoteDegree(degree.1), NoteDuration(n.dur)]
  }

  /** An event that only appears inside a bar, with its beat index in 0..15. */
  predicate BodyEvent(e: Event) {
    || (e.Beat? && 0 <= e.index < 16)
    || e.NoteOctave? || e.NoteDegree? || e.NoteDuration?
  }

  predicate AllBody(e: seq<Event>) {
    forall i :: 0 <= i < |e| ==> BodyEvent(e[i])
  }

  predicate BarsAndBody(e: seq<Event>) {
    forall i :: 0 <= i < |e| ==> e[i] == BarNone || BodyEvent(e[i])
  }

  /** The inner `while` loop for the bar starting at `barStart`, entered with the
      pointer at `idx`: the events it emits and where it leaves the pointer. It stops
      at the first note starting at or after the bar's end, skips a note starting
      before the bar, and emits the others. */
  function BarStep(notes: seq<QNote>, kt: KeyTable, key: string, idx: nat, barStart: int): (res: (seq<Event>, nat))
    requires idx <= |notes|
    ensures idx <= res.1 <= |notes|
    decreases |notes| - idx
  {
    if idx == |notes| then ([], idx)
    else
      var n := notes[idx];
      if n.start >= barStart + BarResol then ([], idx)
      else if !(barStart <= n.start < barStart + BarResol) then BarStep(notes, kt, key, idx + 1, barStart)
      else
        var rest := BarStep(notes, kt, key, idx + 1, barStart);
        (NoteEvents(n, barStart, kt, key) + rest.0, rest.1)
  }

  /** A bar's notes give only in-bar events, every beat index in 0..15. */
  lemma {:induction false} BarStepEvents(notes: seq<QNote>, kt: KeyTable, key: string, idx: nat, barStart: int)
    requires idx <= |notes|
    ensures AllBody(BarStep(notes, kt, key, idx, barStart).0)
    decreases |notes| - idx
  {
    if idx < |notes| && notes[idx].start < barStart + BarResol {
      var n := notes[idx];
      var rest := BarStep(notes, kt, key, idx + 1, barStart).0;
      BarStepEvents(notes, kt, key, idx + 1, barStart);
      if barStart <= n.start {
        var e := NoteEvents(n, barStart, kt, key) + rest;
        assert TickResol == 120 && BarResol == 1920;
        forall i | 0 <= i < |e| ensures BodyEvent(e[i]) {
          if i >= 4 {
            assert e[i] == rest[i - 4];
          }
        }
      }
    }
  }

  /** The number of `Bar_None` events. */
  function CountBars(e: seq<Event>): nat {
    if e == [] then 0 else (if e[0] == BarNone then 1 else 0) + CountBars(e[1..])
  }

  lemma {:induction false} CountBarsAppend(a: seq<Event>, b: seq<Event>)
    ensures CountBars(a + b) == CountBars(a) + CountBars(b)
  {
    if a != [] {
      assert (a + b)[1..] == a[1..] + b;
      CountBarsAppend(a[1..], b);
    } else {
      assert a + b == b;
    }
  }

  lemma {:induction false} CountBarsNone(e: seq<Event>)
    requires forall i :: 0 <= i < |e| ==> e[i] != BarNone
    ensures CountBars(e) == 0
  {
    if e != [] {
      CountBarsNone(e[1..]);
    }
  }

  /** The first `bars` rounds of the `for bar_idx in range(n_bars)` loop: the events
      emitted and where the shared pointer stands. Every round emits exactly one
      `Bar_None`. */
  function Walk(notes: seq<QNote>, kt: KeyTable, key: string, bars: nat): (res: (seq<Event>, nat))
    ensures res.1 <= |notes|
    ensures bars > 0 ==> res.0 != [] && res.0[0] == BarNone
  {
    if bars == 0 then ([], 0)
    else
      var before := Walk(notes, kt, key, bars - 1);
      var step := BarStep(notes, kt, key, before.1, (bars - 1) * BarResol);
      (before.0 + ([BarNone] + step.0), step.1)
  }

  /** The walk emits exactly one `Bar_None` per bar and otherwise only in-bar
      events. */
  lemma {:induction false} WalkEvents(notes: seq<QNote>, kt: KeyTable, key: string, bars: nat)
    ensures CountBars(Walk(notes, kt, key, bars).0) == bars
    ensures BarsAndBody(Walk(notes, kt, key, bars).0)
  {
    if bars > 0 {
      var before := Walk(notes, kt, key, bars - 1);
      var step := BarStep(notes, kt, key, before.1, (bars - 1) * BarResol);
      WalkEvents(notes, kt, key, bars - 1);
      BarStepEvents(notes, kt, key, before.1, (bars - 1) * BarResol);
      CountBarsAppend(before.0, [BarNone] + step.0);
      CountBarsAppend([BarNone], step.0);
      forall i | 0 <= i < |step.0| ensures step.0[i] != BarNone {
        assert BodyEvent(step.0[i]);
      }
      CountBarsNone(step.0);
      var e := before.0 + ([BarNone] + step.0);
      forall i | 0 <= i < |e| ensures e[i] == BarNone || BodyEvent(e[i]) {
        if i < |before.0| {
          assert e[i] == before.0[i];
        } else if i > |before.0| {
          assert e[i] == step.0[i - |before.0| - 1];
        }
      }
    }
  }

  /** `n_bars`: the formula of `estimate_last_bar` applied to the ends `start + dur`. */
  function NBars(notes: seq<QNote>): (n: int)
    requires |notes| > 0
    ensures n >= 1
    ensures forall k :: 0 <= k < |notes| ==> notes[k].start + notes[k].dur <= n * BarResol
    ensures n == 1 || exists k :: 0 <= k < |notes| && notes[k].start + notes[k].dur > (n - 1) * BarResol
  {
    var n := EstimateLastBar(AsNotes(notes));
    assert forall k :: 0 <= k < |notes| ==> AsNotes(notes)[k].end == notes[k].start + notes[k].dur;
    n
  }

  /** What `build_melody_events(quantized_notes, key, emotion, add_track_tokens,
      add_eos)` returns or raises: the stripped key must be one of the table's keys,
      otherwise the error lists them all. */
  function MelodyEvents(notes: seq<QNote>, key: string, kt: KeyTable, emotion: Option<string>,
                        addTrack: bool, addEos: bool): (r: Result<seq<Event>, EncodeError>)
    ensures r.Failure? <==> Strip(key) !in kt.majorKeys && Strip(key) !in kt.minorKeys
    ensures r.Failure? ==> r.error == UnsupportedKey(Strip(key), kt.majorKeys + kt.minorKeys)
  {
    var key := Strip(key);
    if key !in kt.majorKeys && key !in kt.minorKeys then
      Failure(UnsupportedKey(key, kt.majorKeys + kt.minorKeys))
    else
      Success(Header(key, emotion, addTrack) + Body(notes, kt, key) + (if addEos then [EosNone] else []))
  }

  /** The events from the first `Bar_None` on: nothing when there are no notes. */
  function Body(notes: seq<QNote>, kt: KeyTable, key: string): (r: seq<Event>)
    ensures r == [] <==> notes == []
    ensures notes != [] ==> r[0] == BarNone
  {
    if notes == [] then [] else Walk(notes, kt, key, NBars(notes)).0
  }

  /** The bars part is empty exactly when there are no notes, holds `n_bars`
      `Bar_None` events, and otherwise only in-bar events. */
  lemma BodyEvents(notes: seq<QNote>, kt: KeyTable, key: string)
    ensures Body(notes, kt, key) == [] <==> notes == []
    ensures CountBars(Body(notes, kt, key)) == if notes == [] then 0 else NBars(notes)
    ensures BarsAndBody(Body(notes, kt, key))
  {
    if notes != [] {
      WalkEvents(notes, kt, key, NBars(notes));
    }
  }

  /** The three parts of a successful list: header, bars, optional `EOS_None`. */
  lemma MelodyEventsParts(notes: seq<QNote>, key: string, kt: KeyTable, emotion: Option<string>,
                          addTrack: bool, addEos: bool)
    requires MelodyEvents(notes, key, kt, emotion, addTrack, addEos).Success?
    ensures MelodyEvents(notes, key, kt, emotion, addTrack, addEos).value
            == Header(Strip(key), emotion, addTrack) + Body(notes, kt, Strip(key)) + (if addEos then [EosNone] else [])
  {
  }

  /** A successful list opens with the header; with no notes it is the header and
      the optional `EOS_None` alone. */
  lemma MelodyEventsHeader(notes: seq<QNote>, key: string, kt: KeyTable, emotion: Option<string>,
                           addTrack: bool, addEos: bool)
    requires MelodyEvents(notes, key, kt, emotion, addTrack, addEos).Success?
    ensures Header(Strip(key), emotion, addTrack) <= MelodyEvents(notes, key, kt, emotion, addTrack, addEos).value
    ensures notes == [] ==> MelodyEvents(notes, key, kt, emotion, addTrack, addEos).value
                            == Header(Strip(key), emotion, addTrack) + (if addEos then [EosNone] else [])
  {
    MelodyEventsParts(notes, key, kt, emotion, addTrack, addEos);
    var header := Header(Strip(key), emotion, addTrack);
    var body := Body(notes, kt, Strip(key));
    var tail := if addEos then [EosNone] else [];
    ThreeParts(header, body, tail);
    assert notes == [] ==> body == [];
  }

  /** Where an element of a list made of three parts comes from. */
  lemma ThreePartsAt<T>(a: seq<T>, b: seq<T>, c: seq<T>, i: int)
    requires 0 <= i < |a + b + c|
    ensures (a + b + c)[i] == if i < |a| then a[i] else if i < |a| + |b| then b[i - |a|] else c[i - |a| - |b|]
  {
  }

  /** A list made of three parts starts with the first, and is the first and the
      last when the middle one is empty. */
  lemma ThreeParts<T>(a: seq<T>, b: seq<T>, c: seq<T>)
    ensures a <= a + b + c
    ensures b == [] ==> a + b + c == a + c
  {
    assert a + b + c == a + (b + c);
    if b == [] {
      assert a + b == a;
    }
  }

  /** A successful list holds exactly `n_bars` `Bar_None` events, and none when there
      are no notes. */
  lemma MelodyEventsBars(notes: seq<QNote>, key: string, kt: KeyTable, emotion: Option<string>,
                         addTrack: bool, addEos: bool)
    requires MelodyEvents(notes, key, kt, emotion, addTrack, addEos).Success?
    ensures CountBars(MelodyEvents(notes, key, kt, emotion, addTrack, addEos).value)
            == if notes == [] then 0 else NBars(notes)
  {
    MelodyEventsParts(notes, key, kt, emotion, addTrack, addEos);
    BodyEvents(notes, kt, Strip(key));
    var header := Header(Strip(key), emotion, addTrack);
    var body := Body(notes, kt, Strip(key));
    var tail := if addEos then [EosNone] else [];
    CountBarsNone(header);
    CountBarsNone(tail);
    CountBarsAppend(header, body);
    CountBarsAppend(header + body, tail);
  }

  /** Every beat index in a successful list lies in 0..15. */
  lemma MelodyEventsBeats(notes: seq<QNote>, key: string, kt: KeyTable, emotion: Option<string>,
                          addTrack: bool, addEos: bool)
    requires MelodyEvents(notes, key, kt, emotion, addTrack, addEos).Success?
    ensures var r := MelodyEvents(notes, key, kt, emotion, addTrack, addEos).value;
            forall i :: 0 <= i < |r| && r[i].Beat? ==> 0 <= r[i].index < 16
  {
    MelodyEventsParts(notes, key, kt, emotion, addTrack, addEos);
    BodyEvents(notes, kt, Strip(key));
    var header := Header(Strip(key), emotion, addTrack);
    var body := Body(notes, kt, Strip(key));
    var tail := if addEos then [EosNone] else [];
    var r := header + body + tail;
    forall i | 0 <= i < |r| ensures r[i].Beat? ==> 0 <= r[i].index < 16 {
      ThreePartsAt(header, body, tail, i);
    }
  }

  /** A successful list ends with `EOS_None` exactly when `add_eos` is set. */
  lemma MelodyEventsEos(notes: seq<QNote>, key: string, kt: KeyTable, emotion: Option<string>,
                        addTrack: bool, addEos: bool)
    requires MelodyEvents(notes, key, kt, emotion, addTrack, addEos).Success?
    ensures var r := MelodyEvents(notes, key, kt, emotion, addTrack, addEos).value;
            r[|r| - 1] == EosNone <==> addEos
  {
    MelodyEventsParts(notes, key, kt, emotion, addTrack, addEos);
    BodyEvents(notes, kt, Strip(key));
    var header := Header(Strip(key), emotion, addTrack);
    var body := Body(notes, kt, Strip(key));
    var tail := if addEos then [EosNone] else [];
    ThreePartsAt(header, body, tail, |header + body + tail| - 1);
    if !addEos && body != [] {
      assert body[|body| - 1] == BarNone || BodyEvent(body[|body| - 1]);
    }
  }

  /** `build_melody_events`: strips and checks the key, emits the header, then walks
      the notes bar by bar with one pointer shared by all bars. */
  method BuildMelodyEvents(quantizedNotes: seq<QNote>, key: string, kt: KeyTable, emotion: Option<string>,
                           addTrackTokens: bool, addEos: bool) returns (r: Result<seq<Event>, EncodeError>)
    ensures r == MelodyEvents(quantizedNotes, key, kt, emotion, addTrackTokens, addEos)
  {
    var stripped := Strip(key);
    if stripped !in kt.majorKeys && stripped !in kt.minorKeys {
      return Failure(UnsupportedKey(stripped, kt.majorKeys + kt.minorKeys));
    }
    MelodyEventsParts(quantizedNotes, key, kt, emotion, addTrackTokens, addEos);
    var events := EmitHeader(stripped, emotion, addTrackTokens);
    ghost var header := events;

    if |quantizedNotes| == 0 {
      if addEos {
        events := events + [EosNone];
      }
      assert events == header + Body(quantizedNotes, kt, stripped) + (if addEos then [EosNone] else []);
      return Success(events);
    }

    var notes := quantizedNotes;
    var nBars := NBars(notes);
    events := EmitBars(events, notes, kt, stripped, nBars);
    assert events == header + Body(notes, kt, stripped);
    if addEos {
      events := events + [EosNone];
    }
    assert events == header + Body(notes, kt, stripped) + (if addEos then [EosNone] else []);
    r := Success(events);
  }

  /** The header part of `build_melody_events`: the emotion token when one is given,
      the key, and the track token when asked for. */
  method EmitHeader(key: string, emotion: Option<string>, addTrackTokens: bool) returns (events: seq<Event>)
    ensures events == Header(key, emotion, addTrackTokens)
  {
    events := [];
    if emotion.Some? {
      var token := if EmotionPrefix <= emotion.value then emotion.value else EmotionPrefix + emotion.value;
      events := events + [Emotion(token)];
    }
    events := events + [KeyName(key)];
    if addTrackTokens {
      events := events + [TrackMelody];
    }
  }

  /** The `for bar_idx in range(n_bars)` loop of `build_melody_events`, appending to
      `events` while one pointer `idx` moves through the notes across all bars. */
  method EmitBars(prefix: seq<Event>, notes: seq<QNote>, kt: KeyTable, key: string, nBars: nat)
    returns (events: seq<Event>)
    ensures events == prefix + Walk(notes, kt, key, nBars).0
  {
    events := prefix;
    var idx := 0;
    assert events == prefix + Walk(notes, kt, key, 0).0;
    for barIdx := 0 to nBars
      invariant events == prefix + Walk(notes, kt, key, barIdx).0
      invariant idx == Walk(notes, kt, key, barIdx).1
    {
      var barStart := barIdx * BarResol;
      var barEnd := barStart + BarResol;
      ghost var walked := events;
      events := events + [BarNone];
      ghost var i0 := idx;
      ghost var e0 := events;
      while idx < |notes|
        invariant i0 <= idx <= |notes|
        invariant e0 + BarStep(notes, kt, key, i0, barStart).0 == events + BarStep(notes, kt, key, idx, barStart).0
        invariant BarStep(notes, kt, key, i0, barStart).1 == BarStep(notes, kt, key, idx, barStart).1
        decreases |notes| - idx
      {
        var n := notes[idx];
        if n.start >= barEnd {
          break;
        }
        if !(barStart <= n.start < barEnd) {
          idx := idx + 1;
          continue;
        }
        ghost var before := events;
        ghost var rest := BarStep(notes, kt, key, idx + 1, barStart);
        assert BarStep(notes, kt, key, idx, barStart) == (NoteEvents(n, barStart, kt, key) + rest.0, rest.1);
        var beat := (n.start - barStart) / TickResol;
        var degree := kt.pitchToDegree(key, n.pitch);
        events := events + [Beat(beat)];
        events := events + [NoteOctave(degree.0)];
        events := events + [NoteDegree(degree.1)];
        events := events + [NoteDuration(n.dur)];
        assert events == before + NoteEvents(n, barStart, kt, key);
        assert events + rest.0 == before + (NoteEvents(n, barStart, kt, key) + rest.0);
        idx := idx + 1;
      }
      ghost var step := BarStep(notes, kt, key, i0, barStart);
      assert BarStep(notes, kt, key, idx, barStart).0 == [];
      assert events == e0 + step.0;
      assert e0 == walked + [BarNone];
      assert events == walked + ([BarNone] + step.0);
      assert Walk(notes, kt, key, barIdx + 1) == (Walk(notes, kt, key, barIdx).0 + ([BarNone] + step.0), step.1);
    }
  }
}
