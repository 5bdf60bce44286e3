/** What the writer of output_writer.cpp and the reader of parser.cpp agree
    on: a note written as a `<note>` block reads back as the same note, a
    chord's numeral reads back as its degree where the parser's table has
    it, and note types and durations translate both ways. Also where they
    disagree as written: the octave of a flat note. */
module RoundTrip {
  import opened Outcomes
  import opened Strings
  import opened Types
  import opened FileUtil
  import opened OutputWriter
  import opened Parser

  /** A number's text holds no '<', so an element holding it reads back. */
  lemma IntTextHasNoTag(x: int)
    ensures '<' !in IntToString(x)
  {
    if x < 0 {
      var d := NatToString(-x);
      assert IntToString(x) == "-" + d;
      assert forall k | 0 <= k < |d| :: IsDigit(d[k]);
    } else {
      assert forall k | 0 <= k < |NatToString(x)| :: IsDigit(NatToString(x)[k]);
    }
  }

  /** Durations the writer names read back as themselves, and names the
      parser knows are written back as themselves. */
  lemma TypeRoundTrip(d: int, t: string)
    ensures d in {2, 4, 8, 16} ==> TypeDuration(TypeName(d)) == d
    ensures t in {"eighth", "quarter", "half", "whole"} ==> TypeName(TypeDuration(t)) == t
    ensures TypeName(d) != "" <==> d in {2, 4, 8, 16}
  {
  }

  /** A note name the two sides agree on: one of the letters A..G, then
      only sharps or only flats. */
  predicate Spelled(n: Note)
  {
    && |n.name| >= 1
    && IsLetter(n.name[0])
    && (|n.name| > 1 ==> (n.name[1] == '#' || n.name[1] == 'b') && n.name[1..] == Repeat(n.name[1], |n.name| - 1))
  }

  /** The semitones the accidentals of a name add: none for a bare letter. */
  function AccidentalSteps(n: Note): int
  {
    if |n.name| > 1 then Alteration(n) else 0
  }

  /** `n` is its letter in octave `octave`, moved by its accidentals. */
  predicate InOctave(n: Note, octave: int)
    requires |n.name| >= 1
  {
    n.pitch == LetterPitch(n.name[0]) + AccidentalSteps(n) + 12 * octave
  }

  /** The lines of a note block the parser stops at, read back. */
  function ReadBack(lines: seq<string>, altered: bool): Option<Note>
    requires |lines| >= (if altered then 11 else 10)
  {
    DecodeNoteLines(lines[2], if altered then Some(lines[3]) else None, lines[|lines| - 7], lines[|lines| - 3])
  }

  /** The spelling the parser rebuilds from the `alter` value the writer
      puts out is the name's own. */
  lemma AccidentalsOfAlteration(n: Note)
    requires Spelled(n) && |n.name| > 1
    ensures [n.name[0]] + Accidentals(Alteration(n)) == n.name
  {
    var a := Alteration(n);
    assert Accidentals(a) == n.name[1..];
  }

  /** The four element lines the parser stops at, read between '>' and
      '<', give back the texts the writer put in them. */
  lemma AttributesReadBack(letter: char, alter: Option<string>, octave: string, noteType: string)
    requires (alter.Some? ==> '<' !in alter.value) && '<' !in octave && '<' !in noteType && letter != '<'
    ensures DecodeNoteLines(MakeAttribute("step", [letter]),
                            if alter.Some? then Some(MakeAttribute("alter", alter.value)) else None,
                            MakeAttribute("octave", octave), MakeAttribute("type", noteType))
            == DecodeNote([letter], alter, octave, noteType)
  {
    EnclosedAttribute("step", [letter]);
    EnclosedAttribute("octave", octave);
    EnclosedAttribute("type", noteType);
    if alter.Some? {
      EnclosedAttribute("alter", alter.value);
    }
  }

  /** The writer's block, cut at the lines the parser stops at. */
  lemma NoteDataLines(n: Note, octave: int)
    requires Spelled(n)
    ensures var lines := NoteDataWith(n, octave);
            ReadBack(lines, |n.name| > 1)
            == DecodeNoteLines(MakeAttribute("step", [n.name[0]]),
                               if |n.name| > 1 then Some(MakeAttribute("alter", IntToString(Alteration(n)))) else None,
                               MakeAttribute("octave", IntToString(octave)), MakeAttribute("type", TypeName(n.duration)))
  {
  }

  /** The texts the writer puts out for a note in octave `octave` decode to
      the note with its letter, accidentals and type, at the letter's pitch
      moved by the accidentals and `octave` octaves. */
  lemma DecodeWritten(n: Note, octave: int)
    requires Spelled(n) && n.duration in {2, 4, 8, 16}
    ensures DecodeNote([n.name[0]], if |n.name| > 1 then Some(IntToString(Alteration(n))) else None,
                       IntToString(octave), TypeName(n.duration))
            == Some(InOctaveOf(n, octave))
  {
    StoiIntToString(octave);
    TypeRoundTrip(n.duration, "");
    if |n.name| > 1 {
      StoiIntToString(Alteration(n));
      AccidentalsOfAlteration(n);
    } else {
      assert n.name == [n.name[0]];
    }
  }

  /** The note with `n`'s name and duration, at the pitch of its letter
      moved by its accidentals, in octave `octave`. */
  function InOctaveOf(n: Note, octave: int): (r: Note)
    requires |n.name| >= 1
    ensures r.name == n.name && r.duration == n.duration && InOctave(r, octave)
  {
    Note(n.name, LetterPitch(n.name[0]) + AccidentalSteps(n) + 12 * octave, n.duration)
  }

  /** The four element lines the writer puts out for a note in octave
      `octave` decode to the note in that octave. */
  lemma LinesDecode(n: Note, octave: int)
    requires Spelled(n) && n.duration in {2, 4, 8, 16}
    ensures DecodeNoteLines(MakeAttribute("step", [n.name[0]]),
                            if |n.name| > 1 then Some(MakeAttribute("alter", IntToString(Alteration(n)))) else None,
                            MakeAttribute("octave", IntToString(octave)), MakeAttribute("type", TypeName(n.duration)))
            == Some(InOctaveOf(n, octave))
  {
    IntTextHasNoTag(octave);
    if |n.name| > 1 {
      IntTextHasNoTag(Alteration(n));
    }
    AttributesReadBack(n.name[0], if |n.name| > 1 then Some(IntToString(Alteration(n))) else None,
                       IntToString(octave), TypeName(n.duration));
    DecodeWritten(n, octave);
  }

  /** A note's block written with octave `octave` reads back as the note in
      that octave. */
  lemma BlockReadsBack(n: Note, octave: int)
    requires Spelled(n) && n.duration in {2, 4, 8, 16}
    ensures ReadBack(NoteDataWith(n, octave), |n.name| > 1) == Some(InOctaveOf(n, octave))
  {
    NoteDataLines(n, octave);
    LinesDecode(n, octave);
  }

  /** A note in octave `octave` is its own letter and accidentals placed in
      that octave, and an octave lower is the same placed one octave down. */
  lemma InOctaveOfItself(n: Note, octave: int)
    requires |n.name| >= 1 && InOctave(n, octave)
    ensures InOctaveOf(n, octave) == n
    ensures InOctaveOf(n, octave - 1) == n.(pitch := n.pitch - 12)
  {
  }

  /** A spelled note of a known type in a non-negative octave, written as a
      `<note>` block, reads back as the same note. */
  lemma NoteRoundTrip(n: Note, octave: nat)
    requires Spelled(n) && InOctave(n, octave) && n.duration in {2, 4, 8, 16}
    ensures ReadBack(NoteData(n), |n.name| > 1) == Some(n)
  {
    assert Octave(n) == octave;
    BlockReadsBack(n, octave);
    InOctaveOfItself(n, octave);
  }

  /** As written, a flat note's octave comes out one too low: for a letter
      with one to six flats in octave 1 or above, the writer's octave is
      one less. */
  lemma FlatOctaveAsWritten(n: Note, octave: nat)
    requires Spelled(n) && |n.name| > 1 && n.name[1] == 'b' && |n.name| <= 7
    requires InOctave(n, octave) && octave >= 1
    ensures OctaveAsWritten(n) == octave - 1
  {
    var a := Alteration(n);
    assert a == -(|n.name| - 1);
    assert n.pitch + a - LetterPitch(Letter(n)) == 12 * octave + 2 * a;
    FlatSteps(octave, a);
  }

  /** So such a note's block, as written, reads back an octave lower. */
  lemma FlatReadsBackLower(n: Note, octave: nat)
    requires Spelled(n) && |n.name| > 1 && n.name[1] == 'b' && |n.name| <= 7
    requires InOctave(n, octave) && octave >= 1 && n.duration in {2, 4, 8, 16}
    ensures ReadBack(NoteDataAsWritten(n), true) == Some(n.(pitch := n.pitch - 12))
  {
    FlatOctaveAsWritten(n, octave);
    BlockReadsBack(n, octave - 1);
    InOctaveOfItself(n, octave);
  }

  /** One to six flats taken twice from a whole number of octaves drop the
      truncated octave by one. */
  lemma FlatSteps(octave: nat, a: int)
    requires octave >= 1 && -6 <= a < 0
    ensures Div12(12 * octave + 2 * a) == octave - 1
  {
  }

  /** The smallest case: a quarter-note B flat at pitch 46 (octave 3) is
      written in octave 2 and reads back as pitch 34. */
  lemma BFlatAsWritten()
    ensures OctaveAsWritten(Note("Bb", 46, 4)) == 2
    ensures Octave(Note("Bb", 46, 4)) == 3
    ensures ReadBack(NoteDataAsWritten(Note("Bb", 46, 4)), true) == Some(Note("Bb", 34, 4))
    ensures ReadBack(NoteData(Note("Bb", 46, 4)), true) == Some(Note("Bb", 46, 4))
  {
    var n := Note("Bb", 46, 4);
    assert n.name[1..] == Repeat('b', 1);
    assert InOctave(n, 3);
    FlatReadsBackLower(n, 3);
    FlatOctaveAsWritten(n, 3);
    NoteRoundTrip(n, 3);
  }

  /** The final chord's line, written as a `function` element, reads as
      the degree of its numeral. */
  lemma FunctionLineReadsBack(numeral: string)
    requires '<' !in numeral
    ensures FinalDegree([MakeAttribute("function", numeral)]) == NumeralDegree(numeral)
  {
    var line := MakeAttribute("function", numeral);
    EnclosedAttribute("function", numeral);
    assert line[..10] == "<function>";
    assert Contains(line, "<function>");
    assert SkipToLine([line], 0, 1, "<function>", 1) == 0;
    FinalNumeralIsEnclosed(line);
  }

  /** The numeral the writer puts in a chord's `function` element reads back,
      as the final chord's line, as the chord's degree exactly when the
      parser's table holds it; the secondary dominant's "V" reads as 5. */
  lemma NumeralRoundTrip(degree: int, major: bool)
    requires 1 <= degree <= 7 || degree == SecondaryDomDegree
    ensures var r := FinalDegree([MakeAttribute("function", ChordName(degree, major))]);
            && (r.Some? <==> degree == SecondaryDomDegree || degree in {2, 4, 5, 6} || (degree == 1 && major))
            && (r.Some? ==> r.value == if degree == SecondaryDomDegree then 5 else degree)
  {
    var name := ChordName(degree, major);
    assert '<' !in name;
    FunctionLineReadsBack(name);
  }
}
