/** The chord view of the player: reading the sample number out of a generated
    WAV file name, reading the first chord of every bar out of a `*_roman.txt`
    token file, and laying the progression out as text. */
module ChordView {
  import opened Wrappers
  import opened Text

  // ---------------------------------------------------------------------------
  // extract_sample_id_from_wav
  // ---------------------------------------------------------------------------

  /** `os.path.basename(p)` on POSIX: what follows the last `/`. */
  function Basename(p: string): (r: string)
    ensures '/' !in r
    ensures |r| <= |p| && r == p[|p| - |r|..]
    ensures |r| < |p| ==> p[|p| - |r| - 1] == '/'
  {
    if p == [] || p[|p| - 1] == '/' then []
    else
      var front := p[..|p| - 1];
      var b := Basename(front);
      assert p[|p| - |b| - 1..] == front[|front| - |b|..] + [p[|p| - 1]];
      b + [p[|p| - 1]]
  }

  /** The name of a file inside a directory has that name as its base name. */
  lemma BasenameOfChild(dir: string, name: string)
    requires '/' !in name
    ensures Basename(dir + "/" + name) == name
  {
    var p := dir + "/" + name;
    assert p[|dir|] == '/';
    assert p[|dir| + 1..] == name;
  }

  /** The length of the run of ASCII digits at the front of `s` (`\d+` is greedy,
      and `_` is not a digit, so the run the pattern takes is the whole run). */
  function DigitRun(s: string): (n: nat)
    ensures n <= |s|
    ensures forall k :: 0 <= k < n ==> IsDigit(s[k])
    ensures n < |s| ==> !IsDigit(s[n])
  {
    if s != [] && IsDigit(s[0]) then 1 + DigitRun(s[1..]) else 0
  }

  /** `samp_<id>_Q<q>_full.wav<rest>`. */
  function SampleName(id: string, q: char, rest: string): string {
    "samp_" + id + "_Q" + [q] + "_full.wav" + rest
  }

  /** `b` matches `samp_(\d+)_Q[1-4]_full\.wav` from its first character, with
      `id` as the digit group. */
  predicate IsSampleName(b: string, id: string) {
    && |id| >= 1 && AllDigits(id)
    && |b| >= |id| + 17
    && b[..5] == "samp_"
    && b[5..|id| + 5] == id
    && b[|id| + 5..|id| + 7] == "_Q"
    && '1' <= b[|id| + 7] <= '4'
    && b[|id| + 8..|id| + 17] == "_full.wav"
  }

  /** Names built by `SampleName` are the names of that shape. */
  lemma SampleNameShape(id: string, q: char, rest: string)
    requires |id| >= 1 && AllDigits(id) && '1' <= q <= '4'
    ensures IsSampleName(SampleName(id, q, rest), id)
    ensures SampleName(id, q, rest)[|id| + 17..] == rest
  {
  }

  /** `re.match(r"samp_(\d+)_Q[1-4]_full\.wav", b)` and its group 1. */
  function MatchSample(b: string): (r: Option<string>)
    ensures r.Some? ==> IsSampleName(b, r.value)
  {
    if |b| < 5 || b[..5] != "samp_" then None
    else
      var n := DigitRun(b[5..]);
      if n == 0 then None
      else if |b| >= n + 17 && b[n + 5..n + 7] == "_Q" && '1' <= b[n + 7] <= '4' && b[n + 8..n + 17] == "_full.wav" then
        Some(b[5..n + 5])
      else None
  }

  /** Every name of that shape matches, with its own digits as the group. */
  lemma MatchSampleComplete(b: string, id: string)
    requires IsSampleName(b, id)
    ensures MatchSample(b) == Some(id)
  {
    var rest := b[5..];
    assert rest[|id|] == '_';
    assert forall k :: 0 <= k < |id| ==> rest[k] == id[k];
  }

  /** `extract_sample_id_from_wav(wav_path)`. */
  function ExtractSampleId(path: string): (r: Option<string>)
    ensures r.Some? ==> IsSampleName(Basename(path), r.value)
  {
    MatchSample(Basename(path))
  }

  /** A generated file `samp_<id>_Q<q>_full.wav` in any directory gives back its
      sample number, whatever follows the pattern in the name. */
  lemma ExtractSampleIdOfChild(dir: string, id: string, q: char, rest: string)
    requires |id| >= 1 && AllDigits(id) && '1' <= q <= '4'
    requires '/' !in id && '/' !in rest
    ensures ExtractSampleId(dir + "/" + SampleName(id, q, rest)) == Some(id)
  {
    var name := SampleName(id, q, rest);
    SampleNameShape(id, q, rest);
    BasenameOfChild(dir, name);
    MatchSampleComplete(name, id);
  }

  /** The example of the source's docstring. */
  lemma ExtractSampleIdExample()
    ensures ExtractSampleId("generation/samp_06_Q1_full.wav") == Some("06")
  {
    assert AllDigits("06");
    assert "generation/samp_06_Q1_full.wav" == "generation" + "/" + SampleName("06", '1', "");
    ExtractSampleIdOfChild("generation", "06", '1', "");
  }

  // ---------------------------------------------------------------------------
  // parse_bar_chords_from_roman
  // ---------------------------------------------------------------------------

  /** `line.startswith("Key_")`. */
  predicate IsKey(l: string): (b: bool)
    ensures b <==> "Key_" <= l
  {
    |l| >= 4 && l[..4] == "Key_"
  }

  /** `line.startswith("Bar_")`; no `Key_` line is one. */
  predicate IsBar(l: string): (b: bool)
    ensures b <==> "Bar_" <= l
    ensures b ==> !IsKey(l)
  {
    assert |l| >= 4 && l[..4] == "Bar_" ==> l[0] == 'B';
    |l| >= 4 && l[..4] == "Bar_"
  }

  /** `line.startswith("Chord_")`; no `Key_` or `Bar_` line is one. */
  predicate IsChord(l: string): (b: bool)
    ensures b <==> "Chord_" <= l
    ensures b ==> !IsKey(l) && !IsBar(l)
  {
    assert |l| >= 6 && l[..6] == "Chord_" ==> l[0] == 'C';
    |l| >= 6 && l[..6] == "Chord_"
  }

  /** A line has at most one of the three prefixes. */
  lemma LineKinds(l: string)
    ensures !(IsKey(l) && IsBar(l)) && !(IsKey(l) && IsChord(l)) && !(IsBar(l) && IsChord(l))
  {
    if IsKey(l) { assert l[0] == "Key_"[0]; }
    if IsBar(l) { assert l[0] == "Bar_"[0]; }
  }

  /** `[ln.strip() for ln in f if ln.strip()]`: the stripped, non-blank lines. */
  function CleanLines(raw: seq<string>): (r: seq<string>)
    ensures |r| <= |raw|
  {
    if raw == [] then []
    else
      var s := Strip(raw[0]);
      if s != [] then [s] + CleanLines(raw[1..]) else CleanLines(raw[1..])
  }

  /** The first line's contribution, then the rest's. */
  function Kept(l: string): seq<string> {
    if Strip(l) != [] then [Strip(l)] else []
  }

  lemma CleanLinesCons(l: string, rest: seq<string>)
    ensures CleanLines([l] + rest) == Kept(l) + CleanLines(rest)
  {
    assert ([l] + rest)[0] == l && ([l] + rest)[1..] == rest;
  }

  /** A line is kept exactly when it is the non-blank stripping of some input
      line. */
  lemma {:induction false} CleanLinesMembers(raw: seq<string>)
    ensures forall x :: x in CleanLines(raw) <==> x != [] && exists k :: 0 <= k < |raw| && Strip(raw[k]) == x
  {
    forall x | x in CleanLines(raw)
      ensures x != [] && exists k :: 0 <= k < |raw| && Strip(raw[k]) == x
    {
      CleanLinesFrom(raw, x);
    }
    forall x, k | x != [] && 0 <= k < |raw| && Strip(raw[k]) == x
      ensures x in CleanLines(raw)
    {
      CleanLinesKeeps(raw, k);
    }
  }

  /** Every kept line is the non-blank stripping of some input line. */
  lemma {:induction false} CleanLinesFrom(raw: seq<string>, x: string)
    requires x in CleanLines(raw)
    ensures x != [] && exists k :: 0 <= k < |raw| && Strip(raw[k]) == x
  {
    var rest := raw[1..];
    CleanLinesUnfold(raw);
    if x in CleanLines(rest) {
      CleanLinesFrom(rest, x);
      var k :| 0 <= k < |rest| && Strip(rest[k]) == x;
      assert raw[k + 1] == rest[k];
    } else {
      KeptMembers(raw[0], x);
    }
  }

  /** Every input line that is not blank once stripped is kept, stripped. */
  lemma {:induction false} CleanLinesKeeps(raw: seq<string>, k: int)
    requires 0 <= k < |raw| && Strip(raw[k]) != []
    ensures Strip(raw[k]) in CleanLines(raw)
  {
    var rest := raw[1..];
    CleanLinesUnfold(raw);
    if k > 0 {
      assert rest[k - 1] == raw[k];
      CleanLinesKeeps(rest, k - 1);
    } else {
      KeptMembers(raw[0], Strip(raw[0]));
    }
  }

  lemma CleanLinesUnfold(raw: seq<string>)
    requires raw != []
    ensures CleanLines(raw) == Kept(raw[0]) + CleanLines(raw[1..])
  {
  }

  lemma KeptMembers(l: string, x: string)
    ensures x in Kept(l) <==> x != [] && Strip(l) == x
  {
  }

  /** Cleaning keeps the order of the lines: two runs of lines clean to their two
      cleanings one after the other. */
  lemma {:induction false} CleanLinesAppend(a: seq<string>, b: seq<string>)
    ensures CleanLines(a + b) == CleanLines(a) + CleanLines(b)
  {
    if a == [] {
      assert a + b == b;
    } else {
      CleanLinesAppend(a[1..], b);
      CleanLinesAppendStep(a[0], a[1..], b);
      assert a == [a[0]] + a[1..];
      ConcatAssoc([a[0]], a[1..], b);
    }
  }

  lemma CleanLinesAppendStep(l: string, rest: seq<string>, b: seq<string>)
    requires CleanLines(rest + b) == CleanLines(rest) + CleanLines(b)
    ensures CleanLines([l] + (rest + b)) == CleanLines([l] + rest) + CleanLines(b)
  {
    CleanLinesCons(l, rest + b);
    CleanLinesCons(l, rest);
    ConcatAssoc(Kept(l), CleanLines(rest), CleanLines(b));
  }

  lemma ConcatAssoc<T>(x: seq<T>, y: seq<T>, z: seq<T>)
    ensures x + (y + z) == (x + y) + z
  {
  }

  /** Every kept line is non-blank and already stripped. */
  lemma {:induction false} CleanLinesStripped(raw: seq<string>)
    ensures forall k :: 0 <= k < |CleanLines(raw)| ==> CleanLines(raw)[k] != [] && Strip(CleanLines(raw)[k]) == CleanLines(raw)[k]
  {
    if raw != [] {
      CleanLinesStripped(raw[1..]);
      StripIdempotent(raw[0]);
    }
  }

  /** Cleaning cleaned lines changes nothing. */
  lemma {:induction false} CleanLinesIdempotent(raw: seq<string>)
    ensures CleanLines(CleanLines(raw)) == CleanLines(raw)
  {
    if raw != [] {
      CleanLinesIdempotent(raw[1..]);
      StripIdempotent(raw[0]);
      var c := CleanLines(raw);
      if c != [] && Strip(raw[0]) != [] {
        assert c[1..] == CleanLines(raw[1..]);
      }
    }
  }

  /** `bar_chords` is a list with one slot per bar seen so far; `bar_index` is
      always its length minus one. */
  type Slots = seq<Option<string>>

  /** One pass of the `for line in lines` loop. */
  function Step(bc: Slots, l: string): (r: Slots)
    ensures |r| == |bc| + (if IsBar(l) then 1 else 0)
    ensures forall b :: 0 <= b < |bc| && bc[b].Some? ==> r[b] == bc[b]
  {
    LineKinds(l);
    if IsKey(l) then bc
    else if IsBar(l) then bc + [None]
    else if IsChord(l) && |bc| > 0 && bc[|bc| - 1].None? then bc[|bc| - 1 := Some(l[6..])]
    else bc
  }

  /** The loop run over `ls` from the slots `bc`: one new slot per `Bar_` line, and
      a slot that holds a chord keeps it. */
  function Run(bc: Slots, ls: seq<string>): (r: Slots)
    ensures |r| == |bc| + CountBars(ls)
    ensures forall b :: 0 <= b < |bc| && bc[b].Some? ==> r[b] == bc[b]
    decreases |ls|
  {
    if ls == [] then bc else Run(Step(bc, ls[0]), ls[1..])
  }

  /** `bar_chords` after the loop over `ls`. */
  function Scan(ls: seq<string>): (r: Slots)
    ensures |r| == CountBars(ls)
  {
    Run([], ls)
  }

  lemma {:induction false} RunAppend(bc: Slots, a: seq<string>, b: seq<string>)
    ensures Run(bc, a + b) == Run(Run(bc, a), b)
    decreases |a|
  {
    if a == [] {
      assert a + b == b;
    } else {
      assert (a + b)[0] == a[0];
      assert (a + b)[1..] == a[1..] + b;
      RunAppend(Step(bc, a[0]), a[1..], b);
    }
  }

  /** The list of `(bar, chord)` pairs built from the slots: every filled slot,
      numbered from one, in order. */
  function Collect(bc: Slots): (r: seq<(int, string)>)
    ensures forall k :: 0 <= k < |r| ==> 1 <= r[k].0 <= |bc| && bc[r[k].0 - 1] == Some(r[k].1)
    ensures forall k, m :: 0 <= k < m < |r| ==> r[k].0 < r[m].0
  {
    if bc == [] then []
    else
      var front := bc[..|bc| - 1];
      var r := Collect(front);
      assert bc == front + [bc[|bc| - 1]];
      CollectSnoc(front, bc[|bc| - 1], r);
      r + (if bc[|bc| - 1].Some? then [(|bc|, bc[|bc| - 1].value)] else [])
  }

  /** One more slot: the pairs of the shorter list stay valid and ordered, and
      the new slot's pair, if any, comes last with the highest number. */
  lemma CollectSnoc(front: Slots, last: Option<string>, r: seq<(int, string)>)
    requires forall k :: 0 <= k < |r| ==> 1 <= r[k].0 <= |front| && front[r[k].0 - 1] == Some(r[k].1)
    requires forall k, m :: 0 <= k < m < |r| ==> r[k].0 < r[m].0
    ensures var bc := front + [last];
            var t := r + (if last.Some? then [(|bc|, last.value)] else []);
            && (forall k :: 0 <= k < |t| ==> 1 <= t[k].0 <= |bc| && bc[t[k].0 - 1] == Some(t[k].1))
            && (forall k, m :: 0 <= k < m < |t| ==> t[k].0 < t[m].0)
  {
    var bc := front + [last];
    assert forall k :: 0 <= k < |r| ==> front[r[k].0 - 1] == bc[r[k].0 - 1];
  }

  /** A pair is listed exactly when its bar's slot holds that chord. */
  lemma {:induction false} CollectMembers(bc: Slots)
    ensures forall p :: p in Collect(bc) <==> 1 <= p.0 <= |bc| && bc[p.0 - 1] == Some(p.1)
  {
    if bc != [] {
      var front := bc[..|bc| - 1];
      CollectMembers(front);
      forall p: (int, string) | 1 <= p.0 <= |bc| && bc[p.0 - 1] == Some(p.1) ensures p in Collect(bc) {
        if p.0 < |bc| {
          assert front[p.0 - 1] == bc[p.0 - 1];
        }
      }
      forall p: (int, string) | p in Collect(bc) ensures 1 <= p.0 <= |bc| && bc[p.0 - 1] == Some(p.1) {
        var k :| 0 <= k < |Collect(bc)| && Collect(bc)[k] == p;
      }
    }
  }

  /** What `parse_bar_chords_from_roman` returns as its first component for a file
      with the lines `raw`. */
  function BarChords(raw: seq<string>): (r: seq<(int, string)>)
    ensures forall k :: 0 <= k < |r| ==> 1 <= r[k].0 <= CountBars(CleanLines(raw))
    ensures forall k, m :: 0 <= k < m < |r| ==> r[k].0 < r[m].0
  {
    Collect(Scan(CleanLines(raw)))
  }

  /** `parse_bar_chords_from_roman` over the lines of a file that could be read. */
  method ParseBarChords(raw: seq<string>) returns (result: seq<(int, string)>)
    ensures result == BarChords(raw)
  {
    var lines := CleanLines(raw);
    var barIndex := -1;
    var barChords: Slots := [];
    for i := 0 to |lines|
      invariant barChords == Scan(lines[..i])
      invariant barIndex == |barChords| - 1
    {
      var line := lines[i];
      ScanNext(lines, i);
      LineKinds(line);
      if IsKey(line) {
        continue;
      }
      if IsBar(line) {
        barIndex := barIndex + 1;
        barChords := barChords + [None];
        continue;
      }
      if IsChord(line) && barIndex >= 0 {
        var chordName := line[|"Chord_"|..];
        if barChords[barIndex].None? {
          barChords := barChords[barIndex := Some(chordName)];
        }
      }
    }
    assert lines[..|lines|] == lines;
    result := [];
    for i := 0 to |barChords|
      invariant result == Collect(barChords[..i])
    {
      CollectNext(barChords, i);
      if barChords[i].None? {
        continue;
      }
      result := result + [(i + 1, barChords[i].value)];
    }
    assert barChords[..|barChords|] == barChords;
  }

  // Reading the lines forwards: the reference the loop is checked against.

  function CountBars(ls: seq<string>): nat {
    if ls == [] then 0 else (if IsBar(ls[0]) then 1 else 0) + CountBars(ls[1..])
  }

  /** The lines after the `b`-th `Bar_` line, counting from zero. */
  function AfterBar(ls: seq<string>, b: nat): seq<string>
    requires b < CountBars(ls)
    decreases |ls|
  {
    if IsBar(ls[0]) then (if b == 0 then ls[1..] else AfterBar(ls[1..], b - 1))
    else AfterBar(ls[1..], b)
  }

  /** The lines up to the next `Bar_` line. */
  function UntilBar(ls: seq<string>): seq<string> {
    if ls == [] || IsBar(ls[0]) then [] else [ls[0]] + UntilBar(ls[1..])
  }

  /** The name of the first `Chord_` line among `ls`. */
  function FirstChord(ls: seq<string>): Option<string> {
    if ls == [] then None
    else if IsChord(ls[0]) then Some(ls[0][6..])
    else FirstChord(ls[1..])
  }

  /** The chord of bar `b`: the first chord line between its `Bar_` line and the
      next one. */
  function BarChord(ls: seq<string>, b: nat): Option<string>
    requires b < CountBars(ls)
  {
    FirstChord(UntilBar(AfterBar(ls, b)))
  }

  lemma {:induction false} CountBarsAppend(ls: seq<string>, l: string)
    ensures CountBars(ls + [l]) == CountBars(ls) + (if IsBar(l) then 1 else 0)
  {
    if ls != [] {
      assert (ls + [l])[1..] == ls[1..] + [l];
      CountBarsAppend(ls[1..], l);
    }
  }

  lemma {:induction false} AfterBarAppend(ls: seq<string>, l: string, b: nat)
    requires b < CountBars(ls)
    ensures CountBarsAppendHolds(ls, l) && AfterBar(ls + [l], b) == AfterBar(ls, b) + [l]
  {
    CountBarsAppend(ls, l);
    assert (ls + [l])[1..] == ls[1..] + [l];
    if IsBar(ls[0]) && b == 0 {
    } else if IsBar(ls[0]) {
      AfterBarAppend(ls[1..], l, b - 1);
    } else {
      AfterBarAppend(ls[1..], l, b);
    }
  }

  predicate CountBarsAppendHolds(ls: seq<string>, l: string) {
    CountBars(ls + [l]) == CountBars(ls) + (if IsBar(l) then 1 else 0)
  }

  /** A new `Bar_` line opens an empty bar. */
  lemma {:induction false} AfterBarLast(ls: seq<string>, l: string)
    requires IsBar(l)
    ensures CountBarsAppendHolds(ls, l) && AfterBar(ls + [l], CountBars(ls)) == []
  {
    CountBarsAppend(ls, l);
    if ls != [] {
      assert (ls + [l])[1..] == ls[1..] + [l];
      AfterBarLast(ls[1..], l);
    }
  }

  lemma {:induction false} AfterBarCount(ls: seq<string>, b: nat)
    requires b < CountBars(ls)
    ensures CountBars(AfterBar(ls, b)) == CountBars(ls) - b - 1
  {
    if IsBar(ls[0]) && b == 0 {
    } else if IsBar(ls[0]) {
      AfterBarCount(ls[1..], b - 1);
    } else {
      AfterBarCount(ls[1..], b);
    }
  }

  lemma {:induction false} UntilBarAppend(x: seq<string>, l: string)
    ensures UntilBar(x + [l]) == if CountBars(x) > 0 then UntilBar(x) else if IsBar(l) then x else x + [l]
  {
    if x != [] {
      assert (x + [l])[1..] == x[1..] + [l];
      UntilBarAppend(x[1..], l);
      if !IsBar(x[0]) && CountBars(x) == 0 {
        assert [x[0]] + x[1..] == x;
      }
    }
  }

  lemma {:induction false} FirstChordAppend(x: seq<string>, l: string)
    ensures FirstChord(x + [l]) == if FirstChord(x).Some? then FirstChord(x) else if IsChord(l) then Some(l[6..]) else None
  {
    if x != [] {
      assert (x + [l])[1..] == x[1..] + [l];
      FirstChordAppend(x[1..], l);
    }
  }

  lemma ScanAppend(ls: seq<string>, l: string)
    ensures Scan(ls + [l]) == Step(Scan(ls), l)
  {
    RunAppend([], ls, [l]);
  }

  /** One more line read by the first loop. */
  lemma ScanNext(lines: seq<string>, i: nat)
    requires i < |lines|
    ensures Scan(lines[..i + 1]) == Step(Scan(lines[..i]), lines[i])
  {
    assert lines[..i + 1] == lines[..i] + [lines[i]];
    ScanAppend(lines[..i], lines[i]);
  }

  /** One more slot read by the second loop. */
  lemma CollectNext(bc: Slots, i: nat)
    requires i < |bc|
    ensures Collect(bc[..i + 1]) == Collect(bc[..i]) + (if bc[i].Some? then [(i + 1, bc[i].value)] else [])
  {
    assert bc[..i + 1][..i] == bc[..i];
  }

  /** One slot per `Bar_` line, and each slot holds the first chord of its bar:
      `Key_` lines, lines before the first bar and later chords of a bar never
      reach the result. */
  lemma {:induction false} ScanMatchesBars(ls: seq<string>)
    ensures |Scan(ls)| == CountBars(ls)
    ensures forall b :: 0 <= b < |Scan(ls)| ==> Scan(ls)[b] == BarChord(ls, b)
    decreases |ls|
  {
    if ls != [] {
      var front := ls[..|ls| - 1];
      var l := ls[|ls| - 1];
      assert ls == front + [l];
      ScanMatchesBars(front);
      ScanAppend(front, l);
      CountBarsAppend(front, l);
      LineKinds(l);
      var bc := Scan(front);
      var n := |bc|;
      forall b | 0 <= b < n ensures Scan(ls)[b] == BarChord(ls, b) {
        BarChordAppend(front, l, b);
      }
      if IsBar(l) {
        AfterBarLast(front, l);
      }
    }
  }

  /** One more line leaves the chord of every earlier bar alone, except that a
      `Chord_` line fills the last bar when it has no chord yet. */
  lemma BarChordAppend(ls: seq<string>, l: string, b: nat)
    requires b < CountBars(ls)
    ensures CountBars(ls + [l]) > b
    ensures BarChord(ls + [l], b) ==
      if b < CountBars(ls) - 1 || BarChord(ls, b).Some? || !IsChord(l) then BarChord(ls, b) else Some(l[6..])
  {
    var x := AfterBar(ls, b);
    LineKinds(l);
    AfterBarAppend(ls, l, b);
    AfterBarCount(ls, b);
    UntilBarAppend(x, l);
    if b == CountBars(ls) - 1 {
      UntilNoBar(x);
      FirstChordAppend(x, l);
    }
  }

  lemma {:induction false} UntilNoBar(x: seq<string>)
    requires CountBars(x) == 0
    ensures UntilBar(x) == x
  {
    if x != [] {
      UntilNoBar(x[1..]);
      assert [x[0]] + x[1..] == x;
    }
  }

  /** Lines before the first `Bar_` line, chords among them included, leave no
      trace in the slots. */
  lemma {:induction false} ScanIgnoresPreamble(pre: seq<string>, ls: seq<string>)
    requires CountBars(pre) == 0
    ensures Scan(pre + ls) == Scan(ls)
  {
    RunAppend([], pre, ls);
    RunEmptyPreamble(pre);
  }

  lemma {:induction false} RunEmptyPreamble(pre: seq<string>)
    requires CountBars(pre) == 0
    ensures Run([], pre) == []
    decreases |pre|
  {
    if pre != [] {
      LineKinds(pre[0]);
      RunEmptyPreamble(pre[1..]);
    }
  }

  /** A `Key_` line anywhere changes nothing. */
  lemma KeyLineIgnored(a: seq<string>, k: string, b: seq<string>)
    requires IsKey(k)
    ensures Scan(a + [k] + b) == Scan(a + b)
  {
    RunAppend([], a + [k], b);
    RunAppend([], a, [k]);
    RunAppend([], a, b);
  }

  /** The parser's result: 1-based, strictly increasing bar numbers no greater than
      the number of `Bar_` lines, and a pair `(i, c)` is listed exactly when `c` is
      the first chord of bar `i`. */
  lemma BarChordsAreFirstChords(raw: seq<string>)
    ensures var lines := CleanLines(raw);
            forall p :: p in BarChords(raw) <==>
              1 <= p.0 <= CountBars(lines) && BarChord(lines, p.0 - 1) == Some(p.1)
    ensures forall k, m :: 0 <= k < m < |BarChords(raw)| ==> BarChords(raw)[k].0 < BarChords(raw)[m].0
  {
    var lines := CleanLines(raw);
    ScanMatchesBars(lines);
    CollectMembers(Scan(lines));
  }

  // ---------------------------------------------------------------------------
  // VALENCE_BY_Q and load_chord_progression
  // ---------------------------------------------------------------------------

  const ValenceByQ: map<string, string> :=
    map["Q1" := "Positive", "Q4" := "Positive", "Q2" := "Negative", "Q3" := "Negative"]

  /** The table covers the four quadrants: the high-valence ones Q1 and Q4 read as
      `Positive`, Q2 and Q3 as `Negative`. */
  lemma ValenceQuadrants()
    ensures ValenceByQ.Keys == {"Q1", "Q2", "Q3", "Q4"}
    ensures forall q :: q in ValenceByQ ==> (ValenceByQ[q] == "Positive" <==> q == "Q1" || q == "Q4")
    ensures forall q :: q in ValenceByQ ==> (ValenceByQ[q] == "Negative" <==> q == "Q2" || q == "Q3")
  {
  }

  const SampleIdMissing := "コード進行ファイルを特定できませんでした。"
  const ValenceMissing := "valence が特定できませんでした。"
  const NoProgressionFile := "対応するコード進行ファイルが見つかりませんでした。"
  const ProgressionHeader := "コード進行（小節ごと）:"
  const Arrow := '→'

  /** `samp_<id>_<valence>_roman.txt`: the sample number follows `samp_`. */
  function RomanFileName(id: string, valence: string): (r: string)
    ensures |r| == |id| + |valence| + 16 && r[5..5 + |id|] == id
  {
    "samp_" + id + "_" + valence + "_roman.txt"
  }

  /** `samp_<id>_<valence>.txt`: the sample number follows `samp_`, and the name
      is never the roman file's, so the fallback reads another file. */
  function PlainFileName(id: string, valence: string): (r: string)
    ensures |r| == |id| + |valence| + 10 && r[5..5 + |id|] == id
    ensures r != RomanFileName(id, valence)
  {
    "samp_" + id + "_" + valence + ".txt"
  }

  /** `f"小節 {bar_idx}: {chord}"`. */
  function BarLine(p: (int, string)): (r: string)
    ensures |p.1| <= |r| && r[|r| - |p.1|..] == p.1
    ensures '\n' !in p.1 ==> '\n' !in r
  {
    IntToStringNoBreak(p.0);
    "小節 " + IntToString(p.0) + ": " + p.1
  }

  function Chords(bars: seq<(int, string)>): (r: seq<string>)
    ensures |r| == |bars| && forall k :: 0 <= k < |bars| ==> r[k] == bars[k].1
  {
    seq(|bars|, k requires 0 <= k < |bars| => bars[k].1)
  }

  /** The `lines` list of `load_chord_progression`. */
  function ProgressionLines(bars: seq<(int, string)>): (r: seq<string>)
    ensures |r| == |bars| + 3
    ensures NoChordBreaks(bars) ==> NoBreaks(r)
  {
    var lines := seq(|bars|, k requires 0 <= k < |bars| => BarLine(bars[k]))
      + ["", ProgressionHeader, JoinWith(Chords(bars), [Arrow])];
    if NoChordBreaks(bars) then JoinNoBreak(Chords(bars)); lines else lines
  }

  predicate NoChordBreaks(bars: seq<(int, string)>) { forall k :: 0 <= k < |bars| ==> '\n' !in bars[k].1 }

  /** `"\n".join(lines)`. */
  function FormatProgression(bars: seq<(int, string)>): (r: string)
    ensures NoChordBreaks(bars) ==> SplitOn(r, '\n') == ProgressionLines(bars)
  {
    var lines := ProgressionLines(bars);
    if NoChordBreaks(bars) then SplitJoin(lines, '\n'); JoinWith(lines, "\n") else JoinWith(lines, "\n")
  }

  lemma IntToStringNoBreak(i: int)
    ensures '\n' !in IntToString(i)
  {
    var s := IntToString(i);
    if i >= 0 {
      assert forall k :: 0 <= k < |s| ==> IsDigit(s[k]);
    } else {
      var t := NatToString(-i);
      assert forall k :: 0 <= k < |t| ==> IsDigit(t[k]);
    }
  }

  /** The text splits back at its line breaks into one line per bar, in order, then
      a blank line, the header, and the arrow line. */
  lemma FormatProgressionLines(bars: seq<(int, string)>)
    requires forall k :: 0 <= k < |bars| ==> '\n' !in bars[k].1
    ensures var lines := SplitOn(FormatProgression(bars), '\n');
            && |lines| == |bars| + 3
            && (forall k :: 0 <= k < |bars| ==> lines[k] == BarLine(bars[k]))
            && lines[|bars|] == "" && lines[|bars| + 1] == ProgressionHeader
            && lines[|bars| + 2] == JoinWith(Chords(bars), [Arrow])
  {
    var lines := ProgressionLines(bars);
    forall k | 0 <= k < |bars| ensures '\n' !in lines[k] {
      IntToStringNoBreak(bars[k].0);
    }
    JoinNoBreak(Chords(bars));
    SplitJoin(lines, '\n');
  }

  /** The arrow line splits back into the chords, in order and with repeats kept. */
  lemma ArrowLineChords(bars: seq<(int, string)>)
    requires |bars| > 0
    requires forall k :: 0 <= k < |bars| ==> Arrow !in bars[k].1
    ensures SplitOn(JoinWith(Chords(bars), [Arrow]), Arrow) == Chords(bars)
  {
    SplitJoin(Chords(bars), Arrow);
  }

  lemma {:induction false} JoinNoBreak(cs: seq<string>)
    requires forall k :: 0 <= k < |cs| ==> '\n' !in cs[k]
    ensures '\n' !in JoinWith(cs, [Arrow])
  {
    if |cs| > 1 {
      JoinNoBreak(cs[1..]);
    }
  }

  /** `load_chord_progression(sample_id, q_code)` over the generation directory
      `dir`, a map from file name to file text: the two guard messages, then the
      roman file's progression when it has a chord, else the plain file's text,
      else the not-found message. */
  function LoadChordProgression(sampleId: Option<string>, qCode: string, dir: map<string, string>): (r: string)
    ensures sampleId.None? ==> r == SampleIdMissing
    ensures sampleId.Some? && qCode !in ValenceByQ ==> r == ValenceMissing
  {
    if sampleId.None? then SampleIdMissing
    else if qCode !in ValenceByQ then ValenceMissing
    else
      var valence := ValenceByQ[qCode];
      var roman := RomanFileName(sampleId.value, valence);
      var bars := if roman in dir then BarChords(SplitOn(dir[roman], '\n')) else [];
      if bars != [] then FormatProgression(bars)
      else
        var plain := PlainFileName(sampleId.value, valence);
        if plain in dir then dir[plain] else NoProgressionFile
  }

  /** With a known sample and quadrant, a roman file with at least one chord is
      shown as its bar-by-bar progression; otherwise the plain file is shown as it
      is, and without one the not-found message. */
  lemma LoadChordProgressionCases(id: string, qCode: string, dir: map<string, string>)
    requires qCode in ValenceByQ
    ensures var valence := ValenceByQ[qCode];
            var roman := RomanFileName(id, valence);
            var plain := PlainFileName(id, valence);
            var r := LoadChordProgression(Some(id), qCode, dir);
            && (roman in dir && BarChords(SplitOn(dir[roman], '\n')) != [] ==>
                 && r == FormatProgression(BarChords(SplitOn(dir[roman], '\n')))
                 && SplitOn(r, '\n')[0] == BarLine(BarChords(SplitOn(dir[roman], '\n'))[0]))
            && (!(roman in dir && BarChords(SplitOn(dir[roman], '\n')) != []) ==>
                 r == if plain in dir then dir[plain] else NoProgressionFile)
  {
    var valence := ValenceByQ[qCode];
    var roman := RomanFileName(id, valence);
    if roman in dir {
      var bars := BarChords(SplitOn(dir[roman], '\n'));
      if bars != [] {
        assert LoadChordProgression(Some(id), qCode, dir) == FormatProgression(bars);
        FirstBarLine(SplitOn(dir[roman], '\n'));
      }
    }
  }

  /** A non-empty progression read from a file's lines starts with its first bar. */
  lemma FirstBarLine(raw: seq<string>)
    requires NoBreaks(raw) && BarChords(raw) != []
    ensures SplitOn(FormatProgression(BarChords(raw)), '\n')[0] == BarLine(BarChords(raw)[0])
  {
    BarChordsNoBreaks(raw);
    FormatProgressionLines(BarChords(raw));
  }

  predicate NoBreaks(ls: seq<string>) { forall k :: 0 <= k < |ls| ==> '\n' !in ls[k] }

  predicate SlotsNoBreaks(bc: Slots) { forall b :: 0 <= b < |bc| && bc[b].Some? ==> '\n' !in bc[b].value }

  lemma {:induction false} CleanLinesNoBreaks(raw: seq<string>)
    requires NoBreaks(raw)
    ensures NoBreaks(CleanLines(raw))
  {
    if raw != [] {
      CleanLinesNoBreaks(raw[1..]);
      StripNoBreak(raw[0]);
    }
  }

  lemma StripNoBreak(s: string)
    requires '\n' !in s
    ensures '\n' !in Strip(s)
  {
    var left := StripLeft(s);
    var r := StripRight(left);
    assert Strip(s) == r;
  }

  lemma {:induction false} RunNoBreaks(bc: Slots, ls: seq<string>)
    requires SlotsNoBreaks(bc) && NoBreaks(ls)
    ensures SlotsNoBreaks(Run(bc, ls))
    decreases |ls|
  {
    if ls != [] {
      var l := ls[0];
      assert forall k :: 6 <= k < |l| ==> l[6..][k - 6] == l[k];
      RunNoBreaks(Step(bc, l), ls[1..]);
    }
  }

  /** Chords read from the lines of a text hold no line break. */
  lemma BarChordsNoBreaks(raw: seq<string>)
    requires NoBreaks(raw)
    ensures forall k :: 0 <= k < |BarChords(raw)| ==> '\n' !in BarChords(raw)[k].1
  {
    CleanLinesNoBreaks(raw);
    RunNoBreaks([], CleanLines(raw));
  }
}
