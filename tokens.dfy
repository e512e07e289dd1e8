/** The text of each event as `build_melody_events` writes it (`Key_<key>`,
    `Beat_<idx>`, `Note_Duration_<ticks>`, ...), and a reader for that text. Every
    event the encoder emits is read back from its text, so the strings carry
    exactly the information of the events. */
module Tokens {
  import opened Wrappers
  import opened Text
  import opened Encoder

  /** The line written for an event. Reading it back with `ParseToken` gives the
      event again, whenever an emotion token carries its prefix. */
  function Token(e: Event): (r: string)
    ensures Readable(e) ==> ParseToken(r) == Some(e)
  {
    match e
    case Emotion(t) => if EmotionPrefix <= t then EmotionRoundTrip(t); t else t
    case KeyName(k) => KeyRoundTrip(k); "Key_" + k
    case TrackMelody => "Track_Melody"
    case BarNone => "Bar_None"
    case Beat(i) => BeatRoundTrip(i); "Beat_" + IntToString(i)
    case NoteOctave(o) => OctaveRoundTrip(o); "Note_Octave_" + IntToString(o)
    case NoteDegree(r) => DegreeRoundTrip(r); "Note_Degree_" + r
    case NoteDuration(d) => DurationRoundTrip(d); "Note_Duration_" + IntToString(d)
    case EosNone => "EOS_None"
  }

  /** The event a line of text stands for, if any. */
  function ParseToken(s: string): (r: Option<Event>)
    ensures r.Some? && r.value.Emotion? ==> EmotionPrefix <= r.value.token
  {
    if s == "Track_Melody" then Some(TrackMelody)
    else if s == "Bar_None" then Some(BarNone)
    else if s == "EOS_None" then Some(EosNone)
    else if EmotionPrefix <= s then Some(Emotion(s))
    else if "Key_" <= s then Some(KeyName(s[4..]))
    else if "Beat_" <= s then
      match ParseInt(s[5..])
      case Some(i) => Some(Beat(i))
      case None => None
    else if "Note_Octave_" <= s then
      match ParseInt(s[12..])
      case Some(o) => Some(NoteOctave(o))
      case None => None
    else if "Note_Degree_" <= s then Some(NoteDegree(s[12..]))
    else if "Note_Duration_" <= s then
      match ParseInt(s[14..])
      case Some(d) => Some(NoteDuration(d))
      case None => None
    else None
  }

  /** An event whose text can be read back: an emotion token carries its prefix. */
  predicate Readable(e: Event) {
    e.Emotion? ==> EmotionPrefix <= e.token
  }

  lemma PrefixedParts(p: string, rest: string)
    ensures p <= p + rest && (p + rest)[|p|..] == rest
  {
  }

  /** Texts that differ at position `i` neither equal nor extend one another. */
  lemma DiffersAt(p: string, s: string, i: nat)
    requires i < |p| && i < |s| && p[i] != s[i]
    ensures !(p <= s) && s != p
  {
  }

  lemma EmotionRoundTrip(t: string)
    requires EmotionPrefix <= t
    ensures ParseToken(t) == Some(Emotion(t))
  {
    assert t[0] == 'E' && t[1] == 'm';
    DiffersAt("Track_Melody", t, 0);
    DiffersAt("Bar_None", t, 0);
    DiffersAt("EOS_None", t, 1);
  }

  lemma KeyRoundTrip(k: string)
    ensures ParseToken("Key_" + k) == Some(KeyName(k))
  {
    var s := "Key_" + k;
    PrefixedParts("Key_", k);
    assert s[0] == 'K';
    DiffersAt("Track_Melody", s, 0);
    DiffersAt("Bar_None", s, 0);
    DiffersAt("EOS_None", s, 0);
    DiffersAt(EmotionPrefix, s, 0);
  }

  lemma BeatRoundTrip(i: int)
    ensures ParseToken("Beat_" + IntToString(i)) == Some(Beat(i))
  {
    var s := "Beat_" + IntToString(i);
    PrefixedParts("Beat_", IntToString(i));
    IntToStringRoundTrip(i);
    assert s[0] == 'B' && s[1] == 'e';
    DiffersAt("Track_Melody", s, 0);
    DiffersAt("Bar_None", s, 1);
    DiffersAt("EOS_None", s, 0);
    DiffersAt(EmotionPrefix, s, 0);
    DiffersAt("Key_", s, 0);
  }

  /** The checks every `Note_` text passes before its own. */
  lemma NoteTextChecks(s: string)
    requires |s| >= 5 && s[..5] == "Note_"
    ensures s != "Track_Melody" && s != "Bar_None" && s != "EOS_None"
    ensures !(EmotionPrefix <= s) && !("Key_" <= s) && !("Beat_" <= s)
  {
    assert s[0] == 'N';
    DiffersAt("Track_Melody", s, 0);
    DiffersAt("Bar_None", s, 0);
    DiffersAt("EOS_None", s, 0);
    DiffersAt(EmotionPrefix, s, 0);
    DiffersAt("Key_", s, 0);
    DiffersAt("Beat_", s, 0);
  }

  lemma OctaveRoundTrip(o: int)
    ensures ParseToken("Note_Octave_" + IntToString(o)) == Some(NoteOctave(o))
  {
    var s := "Note_Octave_" + IntToString(o);
    PrefixedParts("Note_Octave_", IntToString(o));
    IntToStringRoundTrip(o);
    NoteTextChecks(s);
  }

  lemma DegreeRoundTrip(r: string)
    ensures ParseToken("Note_Degree_" + r) == Some(NoteDegree(r))
  {
    var s := "Note_Degree_" + r;
    PrefixedParts("Note_Degree_", r);
    NoteTextChecks(s);
    assert s[5] == 'D';
    DiffersAt("Note_Octave_", s, 5);
  }

  lemma DurationRoundTrip(d: int)
    ensures ParseToken("Note_Duration_" + IntToString(d)) == Some(NoteDuration(d))
  {
    var s := "Note_Duration_" + IntToString(d);
    PrefixedParts("Note_Duration_", IntToString(d));
    DurationText(s);
  }

  /** A `Note_Duration_` text is read by its last check. */
  lemma DurationText(s: string)
    requires "Note_Duration_" <= s
    ensures ParseInt(s[14..]).Some? ==> ParseToken(s) == Some(NoteDuration(ParseInt(s[14..]).value))
  {
    NoteTextChecks(s);
    assert s[5] == 'D' && s[6] == 'u';
    DiffersAt("Note_Octave_", s, 5);
    DiffersAt("Note_Degree_", s, 6);
  }

  /** Reading an event's text gives the event back. */
  lemma TokenRoundTrip(e: Event)
    requires Readable(e)
    ensures ParseToken(Token(e)) == Some(e)
  {
    match e
    case Emotion(t) => EmotionRoundTrip(t);
    case KeyName(k) => KeyRoundTrip(k);
    case TrackMelody =>
    case BarNone =>
    case Beat(i) => BeatRoundTrip(i);
    case NoteOctave(o) => OctaveRoundTrip(o);
    case NoteDegree(r) => DegreeRoundTrip(r);
    case NoteDuration(d) => DurationRoundTrip(d);
    case EosNone =>
  }

  /** Two readable events with the same text are the same event. */
  lemma TokenInjective(a: Event, b: Event)
    requires Readable(a) && Readable(b) && Token(a) == Token(b)
    ensures a == b
  {
    TokenRoundTrip(a);
    TokenRoundTrip(b);
  }

  predicate AllReadable(s: seq<Event>) {
    forall i :: 0 <= i < |s| ==> Readable(s[i])
  }

  lemma ReadableAppend(a: seq<Event>, b: seq<Event>)
    requires AllReadable(a) && AllReadable(b)
    ensures AllReadable(a + b)
  {
    forall i | 0 <= i < |a + b| ensures Readable((a + b)[i]) {
      if i < |a| {
        assert (a + b)[i] == a[i];
      } else {
        assert (a + b)[i] == b[i - |a|];
      }
    }
  }

  /** The header's only emotion event is the normalised one, which has the prefix. */
  lemma HeaderReadable(key: string, emotion: Option<string>, addTrack: bool)
    ensures AllReadable(Header(key, emotion, addTrack))
  {
    var e: seq<Event> := if emotion.Some? then [Emotion(NormalizeEmotion(emotion.value))] else [];
    var t: seq<Event> := if addTrack then [TrackMelody] else [];
    assert AllReadable(e) && AllReadable([KeyName(key)]) && AllReadable(t);
    ReadableAppend(e, [KeyName(key)]);
    ReadableAppend(e + [KeyName(key)], t);
  }

  /** Every event of a successful `build_melody_events` list is readable, so the list
      of strings it returns determines its events. */
  lemma MelodyEventsReadable(notes: seq<Quantizer.QNote>, key: string, kt: KeyTable, emotion: Option<string>,
                             addTrack: bool, addEos: bool)
    requires MelodyEvents(notes, key, kt, emotion, addTrack, addEos).Success?
    ensures AllReadable(MelodyEvents(notes, key, kt, emotion, addTrack, addEos).value)
  {
    var k := Strip(key);
    MelodyEventsParts(notes, key, kt, emotion, addTrack, addEos);
    BodyEvents(notes, kt, k);
    BodyReadable(Body(notes, kt, k));
    HeaderReadable(k, emotion, addTrack);
    ReadableThree(Header(k, emotion, addTrack), Body(notes, kt, k), if addEos then [EosNone] else []);
  }

  lemma BodyReadable(e: seq<Event>)
    requires BarsAndBody(e)
    ensures AllReadable(e)
  {
    forall i | 0 <= i < |e| ensures Readable(e[i]) {
      assert e[i] == BarNone || BodyEvent(e[i]);
    }
  }

  lemma ReadableThree(a: seq<Event>, b: seq<Event>, c: seq<Event>)
    requires AllReadable(a) && AllReadable(b)
    requires c == [] || c == [EosNone]
    ensures AllReadable(a + b + c)
  {
    ReadableAppend(a, b);
    ReadableAppend(a + b, c);
  }
}
