# EMO melody conversion and chord view, modelled in Dafny

This project models two pieces of the EMO music tools.

The first is the melody converter of EMO-Harmonizer, `EMO_Harmonizer/inference_user.py`. It turns a user's melody MIDI file into the EMOPIA event vocabulary that the harmonizer reads. Its steps are:

- normalise the file's time base to 480 ticks per beat, rescaling the note, tempo-change and time-signature times in place;
- pick the melody track (the first non-drum track, else the first track);
- sort its notes by (start, pitch) and cut each note's end at the next note's start;
- estimate the song length in bars;
- quantise every note to the sixteenth-note grid of 120 ticks, clipping to the song end;
- write `Emotion_*`, `Key_*`, `Track_Melody`, then one `Bar_None` per bar followed by `Beat_*`, `Note_Octave_*`, `Note_Degree_*` and `Note_Duration_*` for each note of the bar, then `EOS_None`.

The second is the chord view of the EMO-Disentanger player, `EMO-Disentanger/app.py`. It has four parts:

- reading the sample number out of a generated `samp_<n>_Q<q>_full.wav` name;
- reading the first chord of every bar out of a `*_roman.txt` token file;
- the quadrant-to-valence table;
- laying the bar chords out as text, with a guard message when the sample number or quadrant is unknown.

Modules, one per file:

- `Wrappers`: `Option` and `Result`.
- `Text`: the Python string operations the code uses (`strip`, `join`, f-string integers) and their inverses.
- `Sorting`: Python's stable sort by a two-part key.
- `Timing`: the resolution constants, `round` on an exact quotient (ties to even), `quantize_tick` and the time rescaling.
- `Midi`: the parsed file as a class whose `NormalizeTicksPerBeat` rescales in place.
- `Melody`: track choice and the in-place monophony pass on an array, and `load_melody_notes`.
- `Quantizer`: `quantize_notes`, `estimate_last_bar`.
- `Encoder`: `build_melody_events`, with its loops as a method and a function specifying them.
- `Decoder`: a reader of event lists, the partner the encoder is proved against.
- `Tokens`: the text of each event and its reader.
- `Pipeline`: the conversion `main` performs between reading and writing files.
- `ChordView`: the `app.py` functions.

The imperative parts keep their form:

- `_normalize_ticks_per_beat` is a method on the `MidiFile` class.
- The monophony pass is an in-place loop over an array.
- `quantize_notes`, `build_melody_events` and `parse_bar_chords_from_roman` are methods with loops.

Each method is proved equal to a specification function. The properties are proved about those functions.

## Model

| member | source | states |
|---|---|---|
| Timing.RoundHalfEven | EMO_Harmonizer/inference_user.py:25 | `round(n / d)`: the result is within half a step of the exact quotient, and an exact tie goes to the even neighbour |
| Timing.RoundHalfEvenUnique | EMO_Harmonizer/inference_user.py:25 | any value with those two properties is the rounded value, so the rounding is fully determined |
| Timing.RoundHalfEvenMonotone | EMO_Harmonizer/inference_user.py:25 | rounding preserves order |
| Timing.Max0 | EMO_Harmonizer/inference_user.py:23-24 | `if t < 0: t = 0`: the result is at least 0 and at least `t`, and is one of the two |
| Timing.QuantizeTick | EMO_Harmonizer/inference_user.py:21-28 | `quantize_tick`: the result is non-negative, on the 120-tick grid, and the grid point nearest the tick clamped at 0, with ties to an even grid index |
| Timing.QuantizeTickUnique | EMO_Harmonizer/inference_user.py:21-28 | the grid point with those properties is unique |
| Timing.QuantizeTickOnGrid | EMO_Harmonizer/inference_user.py:21-28 | a non-negative tick on the grid quantises to itself |
| Timing.QuantizeTickIdempotent | EMO_Harmonizer/inference_user.py:21-28 | quantising twice is quantising once |
| Timing.QuantizeTickMonotone | EMO_Harmonizer/inference_user.py:21-28 | quantisation preserves the order of ticks |
| Timing.RescaleTick | EMO_Harmonizer/inference_user.py:41-47 | `int(round(t * 480 / tpb))`: the result times `tpb` is within half of `tpb` of `t * 480` |
| Timing.RescaleCanonical | EMO_Harmonizer/inference_user.py:38-39 | at 480 ticks per beat a time is unchanged |
| Timing.RescaleMonotone | EMO_Harmonizer/inference_user.py:41-47 | for a positive time base, rescaling preserves the order of times |
| Midi.RescaleInstrument | EMO_Harmonizer/inference_user.py:44-47 | a track keeps its drum flag and note count; each note's start and end are rescaled and its pitch is kept |
| Midi.RescaleInstruments | EMO_Harmonizer/inference_user.py:44-47 | every track is rescaled and the track list keeps its length and order |
| Midi.RescaleTempos | EMO_Harmonizer/inference_user.py:50-51 | only the time of each tempo change is rescaled |
| Midi.RescaleSignatures | EMO_Harmonizer/inference_user.py:54-55 | only the time of each time signature is rescaled |
| Midi.RescaleNote | EMO_Harmonizer/inference_user.py:46-47 | the new start and end are `RescaleTick` of the old ones and the pitch is kept; with a positive time base a note that does not end before it starts still does not; at 480 ticks per beat it is unchanged |
| Midi.RescaleInstrumentsCanonical | EMO_Harmonizer/inference_user.py:38-39 | at 480 ticks per beat the tracks are unchanged |
| Midi.RescaleKeepsOrder | EMO_Harmonizer/inference_user.py:44-47 | rescaling keeps the start order of a track's notes and their pitches |
| Midi.MidiFile.constructor | EMO_Harmonizer/inference_user.py:67 | the parsed file holds the given time base, tracks, tempo changes and time signatures |
| Midi.MidiFile.NormalizeTicksPerBeat | EMO_Harmonizer/inference_user.py:31-57 | `_normalize_ticks_per_beat`: it fails exactly on a zero time base and then changes nothing; at 480 it changes nothing; otherwise every note, tempo and signature time is rescaled in place and the time base becomes 480 |
| Melody.FirstNonDrum | EMO_Harmonizer/inference_user.py:76-80 | the first track whose drum flag is off, or none exactly when every track is a drum track |
| Melody.MelodyTrackIndex | EMO_Harmonizer/inference_user.py:76-82 | the chosen track is the first non-drum track, or track 0 when all are drum tracks |
| Melody.NoteKeyOrder | EMO_Harmonizer/inference_user.py:84 | notes compare as the tuple `(start, pitch)` does: by start, then by pitch |
| Melody.SelectMelodyTrack | EMO_Harmonizer/inference_user.py:76-82 | the `for ... break` loop picks that track |
| Melody.Monophonic | EMO_Harmonizer/inference_user.py:89-92 | the pass keeps every note's start and pitch and the last note; an end only shrinks, and only to the next note's start; each note ends by the next one's start |
| Melody.Cut | EMO_Harmonizer/inference_user.py:91-92 | one note after the pass keeps its start and pitch; its end only shrinks, is at most the next note's start, and changes only to that start |
| Melody.MonophonicSorted | EMO_Harmonizer/inference_user.py:84-92 | on (start, pitch)-sorted notes the pass keeps the order |
| Melody.MonophonicNoOverlap | EMO_Harmonizer/inference_user.py:84-92 | on sorted notes no note overlaps any later note, not just its neighbour |
| Melody.MonophonicMelody | EMO_Harmonizer/inference_user.py:84-92 | sorted notes after the pass are sorted and pairwise non-overlapping |
| Melody.MakeMonophonic | EMO_Harmonizer/inference_user.py:90-92 | the in-place loop over the note array leaves exactly the notes of the pass |
| Melody.MelodyNotes | EMO_Harmonizer/inference_user.py:60-94 | `load_melody_notes`: it fails on a zero time base and on a file with no tracks; on success the notes are non-empty, sorted by (start, pitch) and pairwise non-overlapping |
| Melody.MelodyNotesFromTrack | EMO_Harmonizer/inference_user.py:70-92 | the notes are the chosen rescaled track's notes, permuted into sorted order, after the monophony pass |
| Melody.LoadMelodyNotes | EMO_Harmonizer/inference_user.py:60-94 | the method returns those notes; on a zero time base it leaves the file untouched, and otherwise the file's time base becomes 480 and its tracks, tempo changes and time signatures are the rescaled ones |
| Sorting.SortedPairwise | EMO_Harmonizer/inference_user.py:84 | in a list sorted by key, each key is at most every later key, not only the next |
| Sorting.Insert | EMO_Harmonizer/inference_user.py:84 | inserting into a sorted list keeps it sorted, adds one element, and leaves the new element or the old last one at the end |
| Sorting.InsertPermutation | EMO_Harmonizer/inference_user.py:84 | inserting adds exactly the new element to the multiset of elements |
| Sorting.SortBy | EMO_Harmonizer/inference_user.py:84 | `sorted(..., key=...)`: the result is sorted by key and as long as the input |
| Sorting.SortByPermutation | EMO_Harmonizer/inference_user.py:84 | the sorted result is a permutation of the input |
| Sorting.SortByStable | EMO_Harmonizer/inference_user.py:126 | the sort is stable: elements with equal keys keep their input order |
| Sorting.SortBySorted | EMO_Harmonizer/inference_user.py:126 | sorting a sorted list returns it |
| Quantizer.QuantizeNote | EMO_Harmonizer/inference_user.py:108-124 | one note is dropped exactly when its quantised start is at or past the song end; a kept note is on the grid, at least 120 ticks long, inside the song, starts at the quantised start and keeps its pitch; it keeps its length `max(120, qend - qstart)` when that fits, and otherwise is cut to end exactly at the song end |
| Quantizer.GridArith | EMO_Harmonizer/inference_user.py:112-120 | sums and differences of grid ticks are on the grid |
| Quantizer.QKeyOrder | EMO_Harmonizer/inference_user.py:126 | quantised notes compare as `(x[0], x[2])` does: by start, then by pitch, whatever their durations |
| Quantizer.QuantizeEach | EMO_Harmonizer/inference_user.py:105-124 | the loop keeps at most one note per input note, each on the grid inside the song |
| Quantizer.QuantizeEachMembers | EMO_Harmonizer/inference_user.py:105-124 | a note is in the loop's list exactly when it is `QuantizeNote` of some input note |
| Quantizer.QuantizeEachFrom | EMO_Harmonizer/inference_user.py:105-124 | every note in the loop's list is what `QuantizeNote` makes of some input note (one direction of `QuantizeEachMembers`) |
| Quantizer.QuantizeEachKeeps | EMO_Harmonizer/inference_user.py:105-124 | every input note that `QuantizeNote` keeps contributes its quantised note to the list (the other direction) |
| Quantizer.QuantizeEachAppend | EMO_Harmonizer/inference_user.py:105-124 | the loop keeps input order: two runs of notes give their two lists one after the other |
| Quantizer.Quantized | EMO_Harmonizer/inference_user.py:97-127 | `quantize_notes`: at most as many notes as given, all on the grid and inside the song, sorted by (start, pitch) |
| Quantizer.QuantizedMembers | EMO_Harmonizer/inference_user.py:97-127 | the result is a permutation of the loop's list, so a note is returned exactly when it is `QuantizeNote` of some input note |
| Quantizer.QuantizeNotes | EMO_Harmonizer/inference_user.py:97-127 | the method with its `for ... continue` loop returns exactly `Quantized` |
| Quantizer.QuantizeOnGridNote | EMO_Harmonizer/inference_user.py:108-124 | a note already on the grid and inside the song quantises to itself |
| Quantizer.QuantizeEachOnGrid | EMO_Harmonizer/inference_user.py:105-124 | the loop returns notes already on the grid unchanged |
| Quantizer.QuantizeOnGridIsSort | EMO_Harmonizer/inference_user.py:97-127 | re-quantising on-grid notes only sorts them |
| Quantizer.QuantizeIdempotent | EMO_Harmonizer/inference_user.py:97-127 | quantising the output again with the same song length returns it |
| Quantizer.MaxEnd | EMO_Harmonizer/inference_user.py:134 | the largest note end, attained by some note |
| Quantizer.EstimateLastBar | EMO_Harmonizer/inference_user.py:130-136 | `estimate_last_bar`: the fewest bars, at least one, holding every note end |
| Quantizer.NoteRoundingOntoSongEndIsDropped | EMO_Harmonizer/inference_user.py:106-116 | a one-bar song whose only note starts at tick 1870 quantises to no notes |
| Encoder.NormalizeEmotion | EMO_Harmonizer/inference_user.py:172-175 | the token starts with `Emotion_`; a tag that has the prefix is kept, any other gets it added in front |
| Encoder.Header | EMO_Harmonizer/inference_user.py:171-181 | the optional emotion token, then `Key_<key>`, then `Track_Melody` when track tokens are on, and nothing else |
| Encoder.NoteEvents | EMO_Harmonizer/inference_user.py:207-216 | one note's four events in the order beat, octave, degree, duration; the beat index is the note's offset into the bar rounded down to the 120-tick grid, 0 to 15 for a note inside the bar; octave and degree are `pitch2degree`'s and the duration is the note's |
| Encoder.EmitHeader | EMO_Harmonizer/inference_user.py:169-181 | the statements that append the optional emotion token, the key and the optional track token build exactly `Header` |
| Encoder.BarStep | EMO_Harmonizer/inference_user.py:199-218 | the inner `while` loop only moves the note pointer forward, within the list |
| Encoder.BarStepEvents | EMO_Harmonizer/inference_user.py:199-218 | a bar's note events are note groups with beat indices 0 to 15 |
| Encoder.CountBarsAppend | EMO_Harmonizer/inference_user.py:193-197 | bar markers add up over concatenation |
| Encoder.Walk | EMO_Harmonizer/inference_user.py:192-218 | the outer bar loop leaves the pointer within the list, and with at least one bar its events start with `Bar_None` |
| Encoder.WalkEvents | EMO_Harmonizer/inference_user.py:192-218 | `n` bars of the loop emit exactly `n` bar markers and otherwise only note events |
| Encoder.NBars | EMO_Harmonizer/inference_user.py:189-190 | the fewest bars, at least one, holding every note's start plus duration |
| Encoder.MelodyEvents | EMO_Harmonizer/inference_user.py:162-223 | `build_melody_events`: it fails exactly when the stripped key is in neither key list, with that key and the choices |
| Encoder.BodyEvents | EMO_Harmonizer/inference_user.py:183-218 | the part after the header is empty exactly when there are no notes, and otherwise has one bar marker per estimated bar and only bar markers and note events |
| Encoder.Body | EMO_Harmonizer/inference_user.py:183-218 | the events after the header are empty exactly when there are no notes, and otherwise start with `Bar_None` |
| Encoder.MelodyEventsParts | EMO_Harmonizer/inference_user.py:162-223 | the events are the header, the bar part, and `EOS_None` when it is requested |
| Encoder.MelodyEventsHeader | EMO_Harmonizer/inference_user.py:169-186 | the events start with the header; with no notes they are the header and the optional end token |
| Encoder.MelodyEventsBars | EMO_Harmonizer/inference_user.py:189-197 | the number of `Bar_None` events is the estimated bar count, or 0 with no notes |
| Encoder.MelodyEventsBeats | EMO_Harmonizer/inference_user.py:207-213 | every beat index is a sixteenth position 0 to 15 |
| Encoder.MelodyEventsEos | EMO_Harmonizer/inference_user.py:183-221 | the last event is `EOS_None` exactly when the end token is requested |
| Encoder.BuildMelodyEvents | EMO_Harmonizer/inference_user.py:139-223 | the method with its loops returns exactly `MelodyEvents` |
| Encoder.EmitBars | EMO_Harmonizer/inference_user.py:192-218 | the `for`/`while` loops with `break` and `continue` append exactly the bar part |
| Decoder.DecodeAppend | EMO_Harmonizer/inference_user.py:197-216 | partner-reader lemma on the way to `Decoder.EncodeDecode`: reading a closed event list followed by more events reads each part, the second at the bar count after the first |
| Decoder.ClosedAppend | EMO_Harmonizer/inference_user.py:197-216 | partner-reader lemma on the way to `Decoder.EncodeDecode`: closed event lists concatenate to a closed one |
| Decoder.DecodeStandalone | EMO_Harmonizer/inference_user.py:171-185 | partner-reader lemma used by `Decoder.DecodeFramed`: header and end tokens read as no notes and no bars |
| Decoder.DecodeFramed | EMO_Harmonizer/inference_user.py:169-223 | a header and end token around a closed body read as the body |
| Decoder.Expected | EMO_Harmonizer/inference_user.py:207-216 | one decoded note per note: start rounded down to the grid, duration, octave and degree of the pitch |
| Decoder.ExpectedAppend | EMO_Harmonizer/inference_user.py:207-216 | partner-reader lemma on the way to `Decoder.EncodeDecode`: that reading distributes over concatenation |
| Decoder.BeatFloor | EMO_Harmonizer/inference_user.py:208 | bar start plus beat index times 120 is the note start rounded down to the grid |
| Decoder.DecodeNoteEvents | EMO_Harmonizer/inference_user.py:208-216 | one note's four events read back as that note |
| Decoder.BarStepRun | EMO_Harmonizer/inference_user.py:199-218 | on start-sorted notes, one bar's events read back as exactly the notes the pointer passed, and every later note starts after the bar |
| Decoder.WalkRun | EMO_Harmonizer/inference_user.py:192-218 | after `k` bars the events read back as exactly the notes passed so far |
| Decoder.BarOpened | EMO_Harmonizer/inference_user.py:193-218 | a bar marker followed by one bar's events reads back, from the bar before, as the notes the pointer passed in that bar |
| Decoder.WalkStep | EMO_Harmonizer/inference_user.py:193-218 | one more bar keeps that reading |
| Decoder.AllPassed | EMO_Harmonizer/inference_user.py:189-193 | once the loop has passed the last note end, every note has been passed |
| Decoder.BodyDecodes | EMO_Harmonizer/inference_user.py:186-218 | for start-sorted notes with non-negative starts and positive durations, the bar part is closed and reads back as every note |
| Decoder.EncodeDecode | EMO_Harmonizer/inference_user.py:139-223 | for start-sorted notes with non-negative starts and positive durations, the events read back as every note, in order, with its start rounded down to the grid, its duration, octave and degree |
| Tokens.ParseToken | EMO_Harmonizer/inference_user.py:174-216 | a reader of event text; an emotion it reads carries the `Emotion_` prefix |
| Tokens.Token | EMO_Harmonizer/inference_user.py:174-216 | the text written for an event reads back through `ParseToken` as that event, whenever an emotion token carries its prefix |
| Tokens.EmotionRoundTrip | EMO_Harmonizer/inference_user.py:174-175 | an emotion token's text reads back as that token |
| Tokens.KeyRoundTrip | EMO_Harmonizer/inference_user.py:178 | `Key_<key>` reads back as that key |
| Tokens.BeatRoundTrip | EMO_Harmonizer/inference_user.py:213 | `Beat_<idx>` reads back as that index |
| Tokens.OctaveRoundTrip | EMO_Harmonizer/inference_user.py:214 | `Note_Octave_<octave>` reads back as that octave |
| Tokens.DegreeRoundTrip | EMO_Harmonizer/inference_user.py:215 | `Note_Degree_<roman>` reads back as that degree |
| Tokens.DurationRoundTrip | EMO_Harmonizer/inference_user.py:216 | `Note_Duration_<ticks>` reads back as that duration |
| Tokens.TokenRoundTrip | EMO_Harmonizer/inference_user.py:171-221 | every readable event's text reads back as that event |
| Tokens.TokenInjective | EMO_Harmonizer/inference_user.py:171-221 | two readable events with the same text are the same event |
| Tokens.HeaderReadable | EMO_Harmonizer/inference_user.py:171-181 | every header event is readable, the emotion token carrying its prefix |
| Tokens.MelodyEventsReadable | EMO_Harmonizer/inference_user.py:162-223 | every event `build_melody_events` emits is readable, so its strings determine its events |
| Text.Strip | EMO_Harmonizer/inference_user.py:162 | `str.strip()`: the infix of the input with whitespace all around it cut off, neither starting nor ending with whitespace |
| Text.StripIdempotent | EMO_Harmonizer/inference_user.py:162 | stripping twice is stripping once |
| Text.StripEmptyIff | EMO-Disentanger/app.py:71 | a line strips to nothing exactly when it is all whitespace |
| Text.SplitJoin | EMO-Disentanger/app.py:151-157 | joining pieces free of the separator and splitting again gives the pieces back |
| Text.IntToStringRoundTrip | EMO_Harmonizer/inference_user.py:213-216 | an integer written in decimal reads back as that integer |
| Text.IntToString | EMO_Harmonizer/inference_user.py:213-216 | `str(i)`: non-empty text that `ParseInt` reads back as `i` |
| Text.SplitOn | EMO-Disentanger/app.py:70-71 | splitting at a character: at least one piece, no piece holds the character, and joining the pieces with it gives the text back |
| Pipeline.QuantizedMelody | EMO_Harmonizer/inference_user.py:265-267 | it fails exactly when loading fails; otherwise the loaded notes are non-empty and the result is `Quantized` of them at the length `EstimateLastBar` gives, sorted and no longer than they are |
| Pipeline.Convert | EMO_Harmonizer/inference_user.py:265-268 | loading fails exactly when the melody loader fails; encoding fails exactly when loading succeeds and the key is unsupported |
| Pipeline.ConvertMidi | EMO_Harmonizer/inference_user.py:265-268 | the method's calls in turn return exactly `Convert` of the file as it was read; on a zero time base the file is untouched, otherwise it is left at 480 ticks per beat with its tracks, tempo changes and time signatures rescaled |
| Pipeline.SortedStarts | EMO_Harmonizer/inference_user.py:126 | a list sorted by (start, pitch) is sorted by start |
| Pipeline.BarsWithinSong | EMO_Harmonizer/inference_user.py:189-190 | the encoder's bar count for quantised notes is at most the song length they were quantised to |
| Pipeline.QuantizedRoundTrip | EMO_Harmonizer/inference_user.py:97-223 | quantised notes encode to events that read back exactly as those notes, at their own grid starts, in no more bars than the song |
| Pipeline.ConvertRoundTrip | EMO_Harmonizer/inference_user.py:265-268 | a converted file's events read back as exactly its quantised melody, and their bar count is at most the estimated song length |
| ChordView.Basename | EMO-Disentanger/app.py:51 | `os.path.basename`: the suffix after the last `/`, holding no `/` |
| ChordView.BasenameOfChild | EMO-Disentanger/app.py:51 | the base name of a path ending in a `/`-free name is that name |
| ChordView.DigitRun | EMO-Disentanger/app.py:52 | the greedy `\d+`: a run of digits followed by a non-digit or the end |
| ChordView.SampleNameShape | EMO-Disentanger/app.py:52 | every `samp_<digits>_Q<1-4>_full.wav<rest>` name has the matched shape |
| ChordView.MatchSample | EMO-Disentanger/app.py:52-55 | a match yields a digit group after which come `_Q`, a quadrant digit 1 to 4 and `_full.wav` |
| ChordView.MatchSampleComplete | EMO-Disentanger/app.py:52-55 | every name of that shape matches, with its own digits as the group, whatever follows |
| ChordView.ExtractSampleId | EMO-Disentanger/app.py:47-55 | `extract_sample_id_from_wav`: a result means the base name has the sample shape with that number |
| ChordView.ExtractSampleIdOfChild | EMO-Disentanger/app.py:47-55 | a generated WAV in any directory gives back its sample number |
| ChordView.ExtractSampleIdExample | EMO-Disentanger/app.py:49 | `samp_06_Q1_full.wav` gives `06` |
| ChordView.LineKinds | EMO-Disentanger/app.py:76-84 | no line has two of the `Key_`, `Bar_` and `Chord_` prefixes |
| ChordView.IsKey | EMO-Disentanger/app.py:76 | `line.startswith("Key_")` is the prefix test |
| ChordView.IsBar | EMO-Disentanger/app.py:79 | `line.startswith("Bar_")` is the prefix test, and no `Key_` line passes it |
| ChordView.IsChord | EMO-Disentanger/app.py:84 | `line.startswith("Chord_")` is the prefix test, and no `Key_` or `Bar_` line passes it |
| ChordView.CleanLines | EMO-Disentanger/app.py:71 | no more lines than the input |
| ChordView.CleanLinesMembers | EMO-Disentanger/app.py:71 | a line is kept exactly when it is non-blank and the stripping of some input line |
| ChordView.CleanLinesFrom | EMO-Disentanger/app.py:71 | every kept line is non-blank and the stripping of some input line (one direction of `CleanLinesMembers`) |
| ChordView.CleanLinesKeeps | EMO-Disentanger/app.py:71 | every input line that is non-blank once stripped is kept in its stripped form (the other direction) |
| ChordView.CleanLinesAppend | EMO-Disentanger/app.py:71 | cleaning keeps line order: two runs of lines clean to their two cleanings one after the other |
| ChordView.CleanLinesStripped | EMO-Disentanger/app.py:71 | every kept line is non-blank and already stripped |
| ChordView.CleanLinesIdempotent | EMO-Disentanger/app.py:71 | cleaning clean lines changes nothing |
| ChordView.Step | EMO-Disentanger/app.py:75-88 | one line adds a slot exactly when it is a `Bar_` line, and never changes a filled slot |
| ChordView.Run | EMO-Disentanger/app.py:75-88 | the loop from given slots adds one slot per `Bar_` line and never changes a slot that holds a chord |
| ChordView.Scan | EMO-Disentanger/app.py:75-88 | after the loop there is one slot per `Bar_` line |
| ChordView.RunAppend | EMO-Disentanger/app.py:75-88 | running the loop over two parts runs it over each in turn |
| ChordView.ScanAppend | EMO-Disentanger/app.py:75-88 | one more line is one more step |
| ChordView.Collect | EMO-Disentanger/app.py:90-95 | each listed pair is a filled slot numbered from 1, within the bar count, in strictly increasing order |
| ChordView.CollectMembers | EMO-Disentanger/app.py:90-95 | a pair is listed exactly when its slot holds that chord |
| ChordView.BarChords | EMO-Disentanger/app.py:58-97 | the listed bar numbers are 1-based, at most the number of `Bar_` lines, and strictly increasing |
| ChordView.ParseBarChords | EMO-Disentanger/app.py:58-97 | the method with its two loops returns exactly `BarChords` of the lines |
| ChordView.CountBarsAppend | EMO-Disentanger/app.py:79-82 | bar lines add up over one more line |
| ChordView.AfterBarAppend | EMO-Disentanger/app.py:79-88 | a line added at the end belongs to every bar already open |
| ChordView.AfterBarLast | EMO-Disentanger/app.py:79-83 | a new `Bar_` line opens an empty bar |
| ChordView.AfterBarCount | EMO-Disentanger/app.py:79-82 | after bar `b` come exactly the remaining bar lines |
| ChordView.UntilBarAppend | EMO-Disentanger/app.py:79-88 | a bar's lines grow only while no later `Bar_` line has come |
| ChordView.FirstChordAppend | EMO-Disentanger/app.py:84-88 | a later line changes a bar's first chord only when it has none yet and the line is a chord |
| ChordView.UntilNoBar | EMO-Disentanger/app.py:79-88 | with no bar line, all the lines belong to the bar |
| ChordView.ScanMatchesBars | EMO-Disentanger/app.py:66-88 | one slot per `Bar_` line, each holding the name after `Chord_` of the first chord line between that bar line and the next |
| ChordView.BarChordAppend | EMO-Disentanger/app.py:79-88 | one more line leaves every earlier bar's chord alone, and a `Chord_` line fills the last bar only when that bar has no chord yet |
| ChordView.ScanIgnoresPreamble | EMO-Disentanger/app.py:84 | lines before the first bar, chord lines included, leave no trace |
| ChordView.RunEmptyPreamble | EMO-Disentanger/app.py:84 | before the first bar no slot is made |
| ChordView.KeyLineIgnored | EMO-Disentanger/app.py:76-78 | a `Key_` line anywhere changes nothing |
| ChordView.BarChordsAreFirstChords | EMO-Disentanger/app.py:58-97 | the result lists `(i, c)` exactly when `c` is the first chord of bar `i`, with 1-based, strictly increasing bar numbers no greater than the number of bars |
| ChordView.ValenceQuadrants | EMO-Disentanger/app.py:19-24 | the table covers Q1 to Q4; Q1 and Q4 are `Positive`, Q2 and Q3 `Negative` |
| ChordView.RomanFileName | EMO-Disentanger/app.py:121 | `samp_<id>_<valence>_roman.txt`, with the sample number right after `samp_` |
| ChordView.PlainFileName | EMO-Disentanger/app.py:134 | `samp_<id>_<valence>.txt`, with the sample number right after `samp_`, and never the roman file's name |
| ChordView.Chords | EMO-Disentanger/app.py:151 | the chords of the pairs, in order |
| ChordView.BarLine | EMO-Disentanger/app.py:148 | `小節 <bar>: <chord>` ends with the chord and holds no line break when the chord holds none |
| ChordView.ProgressionLines | EMO-Disentanger/app.py:146-155 | one line per bar plus three, none holding a line break when no chord holds one |
| ChordView.FormatProgression | EMO-Disentanger/app.py:157 | `"\n".join(lines)`: when no chord holds a line break, splitting the text at line breaks gives the lines back |
| ChordView.IntToStringNoBreak | EMO-Disentanger/app.py:148 | a bar number is written without line breaks |
| ChordView.FormatProgressionLines | EMO-Disentanger/app.py:146-157 | the text splits at line breaks into one `小節 i: chord` line per pair, in order, then a blank line, the header, and the arrow line |
| ChordView.ArrowLineChords | EMO-Disentanger/app.py:151 | the arrow line splits back into every chord, in order, with repeats kept |
| ChordView.JoinNoBreak | EMO-Disentanger/app.py:151 | joining chords free of line breaks with arrows adds none |
| ChordView.LoadChordProgression | EMO-Disentanger/app.py:100-157 | `load_chord_progression`: the fixed message for an unknown sample, then the fixed message for an unknown quadrant |
| ChordView.LoadChordProgressionCases | EMO-Disentanger/app.py:120-157 | with both known, a roman file with a chord gives exactly `FormatProgression` of its bar chords, whose first line is the first bar's chord; otherwise the plain file's text, else the not-found message |
| ChordView.FirstBarLine | EMO-Disentanger/app.py:146-157 | the laid-out progression of a file's bar chords starts with the first bar's line |
| ChordView.StripNoBreak | EMO-Disentanger/app.py:71 | stripping adds no line break |
| ChordView.CleanLinesNoBreaks | EMO-Disentanger/app.py:71 | clean lines of break-free lines are break-free |
| ChordView.RunNoBreaks | EMO-Disentanger/app.py:85-88 | a chord name is part of its line |
| ChordView.BarChordsNoBreaks | EMO-Disentanger/app.py:58-97 | chords read from the lines of a file hold no line break |

## Left out

- Reading the MIDI file is left out because it is done by a foreign library. The model assumes that the parsed object has the `time_signatures` list that inference_user.py:54 reads (see Observations). The parsed file is a `MidiFile` object with tracks of (start, end, pitch) notes and a drum flag, tempo changes and time signatures.
- The parsed file's control changes, pitch bends, key signatures, markers and lyrics are not part of the `MidiFile` model. `_normalize_ticks_per_beat` (inference_user.py:31-57) leaves their times unscaled, so the model loses nothing about them that the core changes.
- `pitch2degree`, `MAJOR_KEY` and `MINOR_KEY` come from `representations/convert_key.py`, which is not part of this model. They are a `KeyTable` parameter: two key lists and a pitch-to-(octave, degree) function.
- RescaleTick: the float `t * (480 / float(tpb))` and `round` are modelled as exact rational arithmetic with ties to even. The rounded float factor can move a product that is exactly half-way, for ticks of any size, so Python and the model can differ by one tick there: with `tpb = 704` and `t = 11` Python gives 7 and the model 8, and with `tpb = 1856` and `t = 435` Python gives 113 and the model 112.
- RescaleTick: its contract states the half-step bound only. The tie-to-even rule of `round` is in its body and in `RoundHalfEven`'s contract.
- A zero time base raises `ZeroDivisionError` in the source. Here `NormalizeTicksPerBeat` and `MelodyNotes` report it as a failure before anything changes.
- MelodyNotes: an empty chosen track raises an error in the source. It is modelled as the `NoNotes` failure, but the contract does not state that condition; it states the other two failures as if-and-only-if conditions.
- EstimateLastBar: requires a non-empty list, as its only caller guarantees. On an empty list Python's `max` raises.
- LoadMelodyNotes, ConvertMidi: the monophony pass edits the note objects of the melody track itself, which the file object also holds. The model works on copies of the notes, so that aliasing is not modelled. Their `midi.instruments` post-state is the rescaled tracks with the notes' ends uncut, while in the source the melody track's note objects, in the track's own order, end up with the cut ends.
- Only ASCII digits are treated as `\d`. Python's `\d` on `str` also matches other Unicode decimal digits.
- Bytes the OS cannot decode and file-read errors are left out. This covers the error branch of `parse_bar_chords_from_roman` (app.py:72-73) and the plain-file read error (app.py:140-141). `ParseBarChords` returns only the list, whose error part is `None` on every path modelled.
- Files are read as text split at `\n`. Python's universal-newline translation is not modelled: a lone `\r` does not end a line of the roman file here, and the plain file's text (app.py:139) is returned as stored, while `f.read()` turns each `\r\n` and `\r` into `\n`.
- `write_events_txt`, the argument parsing and the printing in `main` are I/O and are left out. The text of each event is modelled in `Tokens`.
- The Streamlit UI, session state, `random.sample`, audio playback and `list_wavs_for_quadrant` are UI and directory listing, and are left out.
- `prepare_emoharm_for_stage2.py` (file copying) and `render_all_wav.py` (FluidSynth rendering) are left out because they are I/O utilities.
- The order of key names in the unsupported-key message is the concatenation of the two lists, carried in the error value. The exception's message text is not modelled.
- `EmitBars` holds the bar loops of `build_melody_events` as a method of its own, called from `BuildMelodyEvents`. The source has them inline.

## Observations

No defects were found in the modelled code. The first two items are behaviours the proofs bring out, stated as lemmas; the third is a possible defect at the boundary with the parsing library, which the model does not include:

- On notes sorted by (start, pitch), the one-pass monophony already makes every note end before all later notes start, not just the next one (`Melody.MonophonicMelody`).
- A note that lies wholly inside the song is dropped when its start rounds up onto the song end, as one note from tick 1870 to 1900 shows (`Quantizer.NoteRoundingOntoSongEndIsDropped`). The `dur <= 0` branch after clipping is never taken (`Quantizer.QuantizeNote`).
- Not checked against the library, and not executed: inference_user.py:54 loops over `midi.time_signatures`. If the parsing library names that list differently (in miditoolkit it is usually `time_signature_changes`), then every file whose time base is neither 0 nor 480 raises `AttributeError` there. At that point its note and tempo-change times are already rescaled, its `ticks_per_beat` is not, and `load_melody_notes` never returns for it. For example, a file at 960 ticks per beat with one note would fail this way. `Midi.MidiFile.NormalizeTicksPerBeat` models the evidently intended code, in which all three lists are rescaled and the time base becomes 480.
