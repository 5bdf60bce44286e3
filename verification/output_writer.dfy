/** The MusicXML fragments output_writer.cpp writes for the generated bass
    line: one `<note>` block per bass note, one `<harmony>` block per chord,
    and the loop that interleaves them into numbered measures. */
module OutputWriter {
  import opened Strings
  import opened Types
  import opened FileUtil

  /** C++ `/` by 12 on `int`: the quotient truncated toward zero. */
  function Div12(a: int): (q: int)
    ensures a >= 0 ==> 12 * q <= a < 12 * q + 12
    ensures a < 0 ==> 12 * q - 12 < a <= 12 * q
  {
    if a >= 0 then a / 12 else -((-a) / 12)
  }

  /** The note's letter: `name[0]`, the terminating NUL of an empty name. */
  function Letter(n: Note): char
  {
    if |n.name| > 0 then n.name[0] else 0 as char
  }

  /** The semitones the accidentals move the letter: one per character after
      the letter, downwards when the first is 'b'. (The source multiplies
      by an unsigned length and converts back to `int`, which gives the same
      value.) */
  function Alteration(n: Note): (a: int)
    requires |n.name| > 1
    ensures Abs(a) == |n.name| - 1 && (a < 0 <==> n.name[1] == 'b')
  {
    (if n.name[1] == 'b' then -1 else 1) * (|n.name| - 1)
  }

  /** The octave written for a note, as output_writer.cpp computes it:
      `pitch / 12` for a bare letter, and for an altered name
      `(pitch + alteration - letter pitch) / 12`, which adds the
      alteration where it should take it away. */
  function OctaveAsWritten(n: Note): int
  {
    if |n.name| > 1 then Div12(n.pitch + Alteration(n) - LetterPitch(Letter(n)))
    else Div12(n.pitch)
  }

  /** The octave the letter sits in once the accidentals are taken off the
      pitch: the octave the parser reads a pitch from. */
  function Octave(n: Note): int
  {
    if |n.name| > 1 then Div12(n.pitch - Alteration(n) - LetterPitch(Letter(n)))
    else Div12(n.pitch)
  }

  /** The `type` element's text for a duration in sixteenths; the empty
      text for any other duration (the source leaves the string unset). */
  function TypeName(duration: int): string
  {
    if duration == 2 then "eighth"
    else if duration == 4 then "quarter"
    else if duration == 8 then "half"
    else if duration == 16 then "whole"
    else ""
  }

  /** `writeNoteData` with the octave element holding `octave`. */
  function NoteDataWith(n: Note, octave: int): (r: seq<string>)
    ensures |r| == if |n.name| > 1 then 11 else 10
    ensures r[0] == "<note>" && r[1] == "<pitch>" && r[|r| - 1] == "</note>"
    ensures r[2] == MakeAttribute("step", [Letter(n)])
    ensures |n.name| > 1 ==> r[3] == MakeAttribute("alter", IntToString(Alteration(n)))
    ensures r[|r| - 7] == MakeAttribute("octave", IntToString(octave))
    ensures r[|r| - 6] == "</pitch>"
    ensures r[|r| - 5] == MakeAttribute("duration", "1") && r[|r| - 4] == MakeAttribute("voice", "1")
    ensures r[|r| - 3] == MakeAttribute("type", TypeName(n.duration))
    ensures r[|r| - 2] == "<staff>1</staff>"
  {
    var alter := if |n.name| > 1 then [MakeAttribute("alter", IntToString(Alteration(n)))] else [];
    ["<note>", "<pitch>", MakeAttribute("step", [Letter(n)])] + alter + NoteTail(octave, TypeName(n.duration))
  }

  /** `writeNoteData` as the source writes it. */
  function NoteDataAsWritten(n: Note): seq<string>
  {
    NoteDataWith(n, OctaveAsWritten(n))
  }

  /** `writeNoteData` with the octave the parser reads back. */
  function NoteData(n: Note): seq<string>
  {
    NoteDataWith(n, Octave(n))
  }

  /** The source's note block differs from the corrected one only in the
      octave, so the two agree exactly when the octaves do, and always for
      a bare letter. */
  lemma NaturalWrittenAsIs(n: Note)
    ensures |n.name| <= 1 ==> NoteDataAsWritten(n) == NoteData(n)
    ensures NoteDataAsWritten(n) == NoteData(n) <==> OctaveAsWritten(n) == Octave(n)
  {
    var w, c := NoteDataAsWritten(n), NoteData(n);
    if w == c {
      var x, y := IntToString(OctaveAsWritten(n)), IntToString(Octave(n));
      assert MakeAttribute("octave", x) == MakeAttribute("octave", y) by {
        assert w[|w| - 7] == c[|c| - 7];
      }
      var m := |"octave"| + 2;
      assert x == MakeAttribute("octave", x)[m..m + |x|];
      StoiIntToString(OctaveAsWritten(n));
      StoiIntToString(Octave(n));
    }
  }

  /** `chordNames`, read with `operator[]`: the Roman numeral of a degree in
      a major or minor key ("V" for the secondary dominant), and the empty
      text for a pair the table lacks. */
  function ChordName(degree: int, major: bool): string
  {
    if degree == SecondaryDomDegree then "V"
    else if major then
      (if degree == 1 then "I" else if degree == 2 then "ii" else if degree == 3 then "iii"
       else if degree == 4 then "IV" else if degree == 5 then "V" else if degree == 6 then "vi"
       else if degree == 7 then "vii" else "")
    else
      (if degree == 1 then "i" else if degree == 2 then "ii" else if degree == 3 then "III"
       else if degree == 4 then "iv" else if degree == 5 then "V" else if degree == 6 then "VI"
       else if degree == 7 then "vii" else "")
  }

  /** The `kind` element's text, as `writeChordData` builds it. */
  function ChordKind(c: Chord, major: bool): string
  {
    var name := ChordName(c.degree, major);
    var base :=
      if c.inversion == 3 && c.degree == 5 then "dominant"
      else if |name| > 0 && IsLower(name[0]) then "minor"
      else "major";
    if c.degree != 5 && (c.inversion == 3 || (c.inversion == 2 && (c.degree == 2 && c.degree == 5)))
    then base + "-seventh"
    else base
  }

  /** The kind names a third-inversion dominant "dominant"; every other
      chord takes the case of its numeral, and "-seventh" is added exactly
      to third inversions off the dominant (the clause for second inversions
      can never hold). */
  lemma ChordKindMeaning(c: Chord, major: bool)
    ensures var name := ChordName(c.degree, major);
            var kind := ChordKind(c, major);
            && (c.inversion == 3 && c.degree == 5 ==> kind == "dominant")
            && (c.degree != 5 && c.inversion == 3 ==>
                  kind == (if |name| > 0 && IsLower(name[0]) then "minor-seventh" else "major-seventh"))
            && (c.inversion != 3 ==> kind == (if |name| > 0 && IsLower(name[0]) then "minor" else "major"))
  {
  }

  /** `writeChordData`. */
  function ChordData(c: Chord, major: bool): (r: seq<string>)
    ensures |r| == if c.degree == SecondaryDomDegree then 7 else 6
    ensures r[0] == "<harmony placement=\"below\">" && r[|r| - 1] == "</harmony>"
    ensures r[1] == MakeAttribute("function", ChordName(c.degree, major))
    ensures c.degree == SecondaryDomDegree ==> r[2] == r[1]
    ensures r[|r| - 4] == MakeAttribute("kind", ChordKind(c, major))
    ensures r[|r| - 3] == MakeAttribute("inversion", IntToString(c.inversion))
    ensures r[|r| - 2] == MakeAttribute("staff", "1")
  {
    var numeral := MakeAttribute("function", ChordName(c.degree, major));
    ["<harmony placement=\"below\">", numeral]
      + (if c.degree == SecondaryDomDegree then [numeral] else [])
      + [MakeAttribute("kind", ChordKind(c, major)), MakeAttribute("inversion", IntToString(c.inversion)),
         MakeAttribute("staff", "1"), "</harmony>"]
  }

  // ---------------------------------------------------------------------
  // Measures

  /** The line that opens measure `number`. */
  function OpenMeasure(number: int): string
  {
    "<measure number=\"" + IntToString(number) + "\">"
  }

  const CloseMeasure: string := "</measure>"

  /** The beats counted in the current measure when note `i` comes up,
      before the loop checks for a full measure. */
  function Passed(bass: seq<Note>, beatCount: int, i: nat): int
    requires i <= |bass|
  {
    if i == 0 then 0 else Restart(Passed(bass, beatCount, i - 1), beatCount) + bass[i - 1].duration
  }

  /** A full measure starts the count again. */
  function Restart(passed: int, beatCount: int): int
  {
    if passed == beatCount then 0 else passed
  }

  /** Note `i` ends a full measure: the loop closes it before the note. */
  predicate ClosesBefore(bass: seq<Note>, beatCount: int, i: nat)
    requires i < |bass|
  {
    Passed(bass, beatCount, i) == beatCount
  }

  /** Note `i` starts a measure: nothing is counted in it yet. */
  predicate OpensAt(bass: seq<Note>, beatCount: int, i: nat)
    requires i < |bass|
  {
    Restart(Passed(bass, beatCount, i), beatCount) == 0
  }

  /** How many measures the loop has closed before note `i` comes up. */
  function Closed(bass: seq<Note>, beatCount: int, i: nat): nat
    requires i <= |bass|
  {
    if i == 0 then 0 else Closed(bass, beatCount, i - 1) + (if ClosesBefore(bass, beatCount, i - 1) then 1 else 0)
  }

  /** The measure tags the loop writes before note `i`: the close of a
      full measure, then the open of a new one numbered on from `first`. */
  function Marks(bass: seq<Note>, beatCount: int, first: int, i: nat): seq<string>
    requires i < |bass|
  {
    (if ClosesBefore(bass, beatCount, i) then [CloseMeasure] else [])
      + (if OpensAt(bass, beatCount, i) then [OpenMeasure(first + Closed(bass, beatCount, i + 1))] else [])
  }

  /** What the loop writes for the first `n` notes: for each, its measure
      tags and then its data. */
  function Blocks(bass: seq<Note>, data: seq<seq<string>>, beatCount: int, first: int, n: nat): seq<string>
    requires n <= |bass| <= |data|
  {
    if n == 0 then []
    else Blocks(bass, data, beatCount, first, n - 1) + (Marks(bass, beatCount, first, n - 1) + data[n - 1])
  }

  /** The data the loop writes for each note: its chord's block, then its
      own, with the octave as the source writes it. */
  function NoteBlocks(bass: seq<Note>, chords: seq<Chord>, major: bool): (r: seq<seq<string>>)
    requires |bass| <= |chords|
    ensures |r| == |bass|
    ensures forall i | 0 <= i < |bass| :: r[i] == ChordData(chords[i], major) + NoteDataAsWritten(bass[i])
  {
    seq(|bass|, i requires 0 <= i < |bass| => ChordData(chords[i], major) + NoteDataAsWritten(bass[i]))
  }

  /** The measure-grouping loop of `writeToOutputFile` (output_writer.cpp),
      with `data[i]` the chord and note blocks of note `i`: measures
      numbered on from `first`, the measure the rests started in, each
      `beatCount` sixteenths long, and a final close. */
  method MeasureLines(bass: seq<Note>, data: seq<seq<string>>, beatCount: int, first: int)
    returns (lines: seq<string>)
    requires |bass| <= |data|
    ensures lines == Blocks(bass, data, beatCount, first, |bass|) + [CloseMeasure]
  {
    var beatsPassed := 0;
    var measureCount := first;
    lines := [];
    var i := 0;
    while i < |bass|
      invariant i <= |bass|
      invariant Tally(beatsPassed, measureCount, lines) == Tallied(bass, data, beatCount, first, i)
    {
      if beatsPassed == beatCount {
        lines := lines + [CloseMeasure];
        beatsPassed := 0;
        measureCount := measureCount + 1;
      }
      if beatsPassed == 0 {
        lines := lines + [OpenMeasure(measureCount)];
      }
      lines := lines + data[i];
      beatsPassed := beatsPassed + bass[i].duration;
      i := i + 1;
    }
    TalliedBlocks(bass, data, beatCount, first, |bass|);
    lines := lines + [CloseMeasure];
  }

  /** What the loop keeps between notes: the beats counted in the current
      measure, the number of the current measure, and the lines so far. */
  datatype Tally = Tally(passed: int, count: int, lines: seq<string>)

  /** One turn of the loop for a note and its data: close a full measure,
      open a new one if nothing is counted yet, write the data, count the
      note's beats. */
  function Turn(t: Tally, note: Note, block: seq<string>, beatCount: int): Tally
  {
    var closes := t.passed == beatCount;
    var passed := if closes then 0 else t.passed;
    var count := if closes then t.count + 1 else t.count;
    var closing := if closes then [CloseMeasure] else [];
    var opening := if passed == 0 then [OpenMeasure(count)] else [];
    Tally(passed + note.duration, count, t.lines + closing + opening + block)
  }

  /** The tally after the loop's first `n` turns. */
  function Tallied(bass: seq<Note>, data: seq<seq<string>>, beatCount: int, first: int, n: nat): Tally
    requires n <= |bass| <= |data|
  {
    if n == 0 then Tally(0, first, [])
    else Turn(Tallied(bass, data, beatCount, first, n - 1), bass[n - 1], data[n - 1], beatCount)
  }

  /** After `n` turns the loop has counted `Passed` beats, closed `Closed`
      measures and written the `Blocks` of the first `n` notes. */
  lemma {:induction false} TalliedBlocks(bass: seq<Note>, data: seq<seq<string>>, beatCount: int, first: int, n: nat)
    requires n <= |bass| <= |data|
    ensures Tallied(bass, data, beatCount, first, n).passed == Passed(bass, beatCount, n)
    ensures Tallied(bass, data, beatCount, first, n).count == first + Closed(bass, beatCount, n)
    ensures Tallied(bass, data, beatCount, first, n).lines == Blocks(bass, data, beatCount, first, n)
  {
    if n > 0 {
      TalliedBlocks(bass, data, beatCount, first, n - 1);
      var t := Tallied(bass, data, beatCount, first, n - 1);
      MeasureStep(bass, beatCount, first, n - 1, t.passed, t.count);
      TurnLines(t, bass[n - 1], data[n - 1], beatCount, Marks(bass, beatCount, first, n - 1));
    }
  }

  /** A turn writes the marks of its note, then the note's data. */
  lemma TurnLines(t: Tally, note: Note, block: seq<string>, beatCount: int, marks: seq<string>)
    requires marks == (if t.passed == beatCount then [CloseMeasure] else [])
                      + (if Restart(t.passed, beatCount) == 0
                         then [OpenMeasure(if t.passed == beatCount then t.count + 1 else t.count)] else [])
    ensures Turn(t, note, block, beatCount).lines == t.lines + (marks + block)
  {
  }

  /** One turn of the measure loop, in terms of the counts it keeps. */
  lemma MeasureStep(bass: seq<Note>, beatCount: int, first: int, i: nat, passed: int, count: int)
    requires i < |bass| && passed == Passed(bass, beatCount, i) && count == first + Closed(bass, beatCount, i)
    ensures ClosesBefore(bass, beatCount, i) <==> passed == beatCount
    ensures OpensAt(bass, beatCount, i) <==> Restart(passed, beatCount) == 0
    ensures (if passed == beatCount then count + 1 else count) == first + Closed(bass, beatCount, i + 1)
    ensures Restart(passed, beatCount) + bass[i].duration == Passed(bass, beatCount, i + 1)
  {
  }

  /** The lines that open a measure. */
  predicate IsOpenMeasure(line: string)
  {
    |line| >= 2 && line[1] == 'm'
  }

  function CountOpen(lines: seq<string>): nat
  {
    if |lines| == 0 then 0 else CountOpen(lines[..|lines| - 1]) + (if IsOpenMeasure(lines[|lines| - 1]) then 1 else 0)
  }

  function CountClose(lines: seq<string>): nat
  {
    if |lines| == 0 then 0 else CountClose(lines[..|lines| - 1]) + (if lines[|lines| - 1] == CloseMeasure then 1 else 0)
  }

  lemma {:induction false} CountAppend(a: seq<string>, b: seq<string>)
    ensures CountOpen(a + b) == CountOpen(a) + CountOpen(b)
    ensures CountClose(a + b) == CountClose(a) + CountClose(b)
    decreases |b|
  {
    if |b| > 0 {
      assert (a + b)[..|a + b| - 1] == a + b[..|b| - 1];
      assert (a + b)[|a + b| - 1] == b[|b| - 1];
      CountAppend(a, b[..|b| - 1]);
    } else {
      assert a + b == a;
    }
  }

  /** A line that is neither a measure's open nor its close. */
  predicate Plain(line: string)
  {
    |line| >= 2 && line[1] != 'm' && line != CloseMeasure
  }

  lemma {:induction false} PlainCounts(lines: seq<string>)
    requires forall k | 0 <= k < |lines| :: Plain(lines[k])
    ensures CountOpen(lines) == 0 && CountClose(lines) == 0
    decreases |lines|
  {
    if |lines| > 0 {
      PlainCounts(lines[..|lines| - 1]);
    }
  }

  /** A tag whose name does not start with 'm' or '/' is plain. */
  lemma AttributePlain(name: string, body: string)
    requires |name| > 0 && name[0] != 'm' && name[0] != '/'
    ensures Plain(MakeAttribute(name, body))
  {
    var s := MakeAttribute(name, body);
    assert s[1] == name[0];
  }

  /** A chord block holds no measure tags. */
  lemma ChordDataPlain(c: Chord, major: bool)
    ensures CountOpen(ChordData(c, major)) == 0 && CountClose(ChordData(c, major)) == 0
  {
    var cd := ChordData(c, major);
    AttributePlain("function", ChordName(c.degree, major));
    AttributePlain("kind", ChordKind(c, major));
    AttributePlain("inversion", IntToString(c.inversion));
    AttributePlain("staff", "1");
    assert forall k | 0 <= k < |cd| :: Plain(cd[k]);
    PlainCounts(cd);
  }

  /** A note block holds no measure tags. */
  lemma NoteDataPlain(n: Note)
    ensures CountOpen(NoteData(n)) == 0 && CountClose(NoteData(n)) == 0
  {
    NoteLinesPlain(n, Octave(n));
  }

  /** A note block in any octave holds no measure tags. */
  lemma NoteLinesPlain(n: Note, octave: int)
    ensures CountOpen(NoteDataWith(n, octave)) == 0 && CountClose(NoteDataWith(n, octave)) == 0
  {
    var head := ["<note>", "<pitch>", MakeAttribute("step", [Letter(n)])];
    var alter := if |n.name| > 1 then [MakeAttribute("alter", IntToString(Alteration(n)))] else [];
    var tail := NoteTail(octave, TypeName(n.duration));
    AttributePlain("step", [Letter(n)]);
    PlainCounts(head);
    if |n.name| > 1 {
      AttributePlain("alter", IntToString(Alteration(n)));
    }
    PlainCounts(alter);
    NoteTailPlain(octave, TypeName(n.duration));
    CountAppend(head, alter);
    CountAppend(head + alter, tail);
  }

  /** The lines of a note block from the octave on. */
  function NoteTail(octave: int, noteType: string): seq<string>
  {
    [MakeAttribute("octave", IntToString(octave)), "</pitch>",
     MakeAttribute("duration", "1"), MakeAttribute("voice", "1"),
     MakeAttribute("type", noteType), "<staff>1</staff>", "</note>"]
  }

  lemma NoteTailPlain(octave: int, noteType: string)
    ensures CountOpen(NoteTail(octave, noteType)) == 0 && CountClose(NoteTail(octave, noteType)) == 0
  {
    AttributePlain("octave", IntToString(octave));
    AttributePlain("duration", "1");
    AttributePlain("voice", "1");
    AttributePlain("type", noteType);
    PlainCounts(NoteTail(octave, noteType));
  }

  /** The data the loop writes for a note holds no measure tags. */
  lemma NoteBlocksPlain(bass: seq<Note>, chords: seq<Chord>, major: bool, i: nat)
    requires i < |bass| <= |chords|
    ensures CountOpen(NoteBlocks(bass, chords, major)[i]) == 0
    ensures CountClose(NoteBlocks(bass, chords, major)[i]) == 0
  {
    ChordDataPlain(chords[i], major);
    NoteLinesPlain(bass[i], OctaveAsWritten(bass[i]));
    CountAppend(ChordData(chords[i], major), NoteDataAsWritten(bass[i]));
  }

  /** How many of the first `n` notes start a measure. */
  function Opened(bass: seq<Note>, beatCount: int, n: nat): nat
    requires n <= |bass|
  {
    if n == 0 then 0 else Opened(bass, beatCount, n - 1) + (if OpensAt(bass, beatCount, n - 1) then 1 else 0)
  }

  /** A measure's open line is counted as an open, not as a close. */
  lemma OpenMeasureTag(number: int)
    ensures IsOpenMeasure(OpenMeasure(number)) && OpenMeasure(number) != CloseMeasure
  {
    var s := OpenMeasure(number);
    assert s[1] == 'm';
  }

  /** The tags before note `i` count one close when it ends a full measure
      and one open when it starts one. */
  lemma MarksCount(bass: seq<Note>, beatCount: int, first: int, i: nat)
    requires i < |bass|
    ensures CountOpen(Marks(bass, beatCount, first, i)) == if OpensAt(bass, beatCount, i) then 1 else 0
    ensures CountClose(Marks(bass, beatCount, first, i)) == if ClosesBefore(bass, beatCount, i) then 1 else 0
  {
    var close: seq<string> := if ClosesBefore(bass, beatCount, i) then [CloseMeasure] else [];
    var open: seq<string> := if OpensAt(bass, beatCount, i) then [OpenMeasure(first + Closed(bass, beatCount, i + 1))] else [];
    OpenMeasureTag(first + Closed(bass, beatCount, i + 1));
    assert close[..0] == [] && open[..0] == [];
    CountAppend(close, open);
  }

  /** The blocks open and close exactly the measures the beat count says,
      when the data holds no measure tags. */
  lemma {:induction false} BlocksCount(bass: seq<Note>, data: seq<seq<string>>, beatCount: int, first: int, n: nat)
    requires n <= |bass| <= |data|
    requires PlainData(data)
    ensures CountOpen(Blocks(bass, data, beatCount, first, n)) == Opened(bass, beatCount, n)
    ensures CountClose(Blocks(bass, data, beatCount, first, n)) == Closed(bass, beatCount, n)
    decreases n
  {
    if n > 0 {
      var i := n - 1;
      var marks := Marks(bass, beatCount, first, i);
      BlocksCount(bass, data, beatCount, first, i);
      MarksCount(bass, beatCount, first, i);
      CountAppend(marks, data[i]);
      CountAppend(Blocks(bass, data, beatCount, first, i), marks + data[i]);
    }
  }

  /** With a positive measure length and notes that all take time, a note
      starts a measure exactly when it is the first or closes a full one. */
  lemma {:induction false} OpensExactlyAfterClose(bass: seq<Note>, beatCount: int, n: nat)
    requires beatCount > 0 && n <= |bass|
    requires forall k | 0 <= k < |bass| :: bass[k].duration > 0
    ensures n > 0 ==> Opened(bass, beatCount, n) == 1 + Closed(bass, beatCount, n)
    ensures n > 0 ==> Passed(bass, beatCount, n) > 0
    decreases n
  {
    if n > 1 {
      OpensExactlyAfterClose(bass, beatCount, n - 1);
    }
  }

  /** No note's data holds a measure tag. */
  predicate PlainData(data: seq<seq<string>>)
  {
    forall i | 0 <= i < |data| :: CountOpen(data[i]) == 0 && CountClose(data[i]) == 0
  }

  /** The chord and note blocks hold no measure tags. */
  lemma NoteBlocksArePlain(bass: seq<Note>, chords: seq<Chord>, major: bool)
    requires |bass| <= |chords|
    ensures PlainData(NoteBlocks(bass, chords, major))
  {
    forall i | 0 <= i < |bass|
      ensures CountOpen(NoteBlocks(bass, chords, major)[i]) == 0
      ensures CountClose(NoteBlocks(bass, chords, major)[i]) == 0
    {
      NoteBlocksPlain(bass, chords, major, i);
    }
  }

  /** Every measure the loop opens it also closes, the last by the final
      close: for a non-empty bass line of notes that take time, and data
      without measure tags (as `NoteBlocksArePlain` shows of the chord and
      note blocks), the written lines hold as many measure opens as closes,
      one more than the number of full measures passed. */
  lemma MeasuresBalanced(bass: seq<Note>, data: seq<seq<string>>, beatCount: int, first: int)
    requires 0 < |bass| <= |data| && beatCount > 0 && PlainData(data)
    requires forall k | 0 <= k < |bass| :: bass[k].duration > 0
    ensures var lines := Blocks(bass, data, beatCount, first, |bass|) + [CloseMeasure];
            CountOpen(lines) == CountClose(lines) == Closed(bass, beatCount, |bass|) + 1
  {
    var blocks := Blocks(bass, data, beatCount, first, |bass|);
    BlocksCount(bass, data, beatCount, first, |bass|);
    OpensExactlyAfterClose(bass, beatCount, |bass|);
    CountAppend(blocks, [CloseMeasure]);
    assert [CloseMeasure][..0] == [];
  }
}
