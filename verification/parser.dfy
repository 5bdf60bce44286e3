/** The decoders of parser.cpp, over text already cut out of the MusicXML
    file: the key named in the score's annotation, the Roman numeral of the
    chord the given bass line ends on, and one note from the lines of its
    `<note>` block. Where the source throws (`std::map::at`, `std::stoi`,
    `std::string::at`) or exits, the model answers nothing. */
module Parser {
  import opened Outcomes
  import opened Strings
  import opened Types
  import opened Keys
  import opened FileUtil

  // ---------------------------------------------------------------------
  // The key (parser.cpp, key-name decoding)

  /** The accidental steps a key name's tail adds to its letter: one per
      character after the first, downwards when the second is 'b'. */
  function KeyAlteration(name: string): int
  {
    if |name| > 1 then (if name[1] == 'b' then -1 else 1) * (|name| - 1) else 0
  }

  /** A key name's quality and tonic: the first character, upper-cased,
      picks the letter (nothing when it is not one of A..G); a lower-case
      first character makes the key harmonic minor. The tonic's name is the
      bare letter. */
  function DecodeKeyName(name: string): (r: Option<(KeyQuality, Note)>)
    ensures r.Some? <==> |name| > 0 && IsLetter(ToUpper(name[0]))
    ensures r.Some? ==> r.value.1.name == [ToUpper(name[0])] && IsLetter(r.value.1.name[0])
    ensures r.Some? ==> (r.value.0 == HarmonicMinor <==> IsLower(name[0]))
    ensures r.Some? ==> r.value.1.pitch == LetterPitch(ToUpper(name[0]))
                                            + (if |name| > 1 && name[1] == 'b' then -1 else 1) * (|name| - 1)
  {
    var first := if |name| > 0 then name[0] else 0 as char;
    var letter := ToUpper(first);
    if !IsLetter(letter) then None
    else
      var quality := if IsLower(first) then HarmonicMinor else Major;
      Some((quality, Note([letter], LetterPitch(letter) + KeyAlteration(name), 0)))
  }

  /** The key a key name stands for, built by `Key`'s constructor. */
  function ParseKey(name: string): (r: Option<Key>)
    ensures r.Some? <==> DecodeKeyName(name).Some?
  {
    match DecodeKeyName(name)
    case None => None
    case Some((quality, tonic)) => Some(MakeKey(quality, tonic))
  }

  /** How a key is named in the score: its letter, lower-case for harmonic
      minor, then `Abs(alteration)` sharps or flats. */
  function KeyName(quality: KeyQuality, letter: char, alteration: int): (s: string)
    requires IsLetter(letter)
  {
    [if quality == HarmonicMinor then (letter as int + 32) as char else letter]
      + Repeat(if alteration > 0 then '#' else 'b', Abs(alteration))
  }

  /** Reading a key's name gives back its quality and its tonic: the letter
      and the letter's pitch moved by the accidentals. */
  lemma KeyNameRoundTrip(quality: KeyQuality, letter: char, alteration: int)
    requires IsLetter(letter)
    ensures DecodeKeyName(KeyName(quality, letter, alteration))
            == Some((quality, Note([letter], LetterPitch(letter) + alteration, 0)))
  {
    var s := KeyName(quality, letter, alteration);
    assert ToUpper(s[0]) == letter;
    if |s| > 1 {
      assert s[1] == (if alteration > 0 then '#' else 'b');
    }
  }

  // ---------------------------------------------------------------------
  // The final chord (parser.cpp, final-numeral lookup)

  /** `numeralsToDegrees`, read with `at`: the degrees of the numerals a
      user may name the final chord with. */
  function NumeralDegree(numeral: string): (r: Option<int>)
    ensures r.Some? ==> r.value in {1, 2, 4, 5, 6}
    ensures r.Some? <==> numeral in {"I", "ii", "IV", "iv", "V", "v", "VI", "vi"}
    ensures r == Some(1) <==> numeral == "I"
    ensures r == Some(2) <==> numeral == "ii"
    ensures r == Some(4) <==> numeral in {"IV", "iv"}
    ensures r == Some(5) <==> numeral in {"V", "v"}
    ensures r == Some(6) <==> numeral in {"VI", "vi"}
  {
    if numeral == "I" then Some(1)
    else if numeral == "ii" then Some(2)
    else if numeral == "IV" || numeral == "iv" then Some(4)
    else if numeral == "V" || numeral == "v" then Some(5)
    else if numeral == "VI" || numeral == "vi" then Some(6)
    else None
  }

  /** The alphabetic characters at the front of a line. */
  function LeadingAlpha(s: string): (r: string)
    ensures |r| <= |s| && r == s[..|r|]
    ensures forall k | 0 <= k < |r| :: IsAlpha(r[k])
    ensures |r| < |s| ==> !IsAlpha(s[|r|])
    decreases |s|
  {
    if |s| == 0 || !IsAlpha(s[0]) then ""
    else [s[0]] + LeadingAlpha(s[1..])
  }

  /** The numeral on the final chord's line: the text between '>' and '<',
      followed by the letters the line starts with. */
  function FinalNumeral(line: string): Option<string>
  {
    match EnclosedString(line, '>', '<')
    case None => None
    case Some(text) => Some(text + LeadingAlpha(line))
  }

  /** A line that starts with a tag adds nothing to the enclosed text. */
  lemma FinalNumeralIsEnclosed(line: string)
    requires |line| > 0 && line[0] == '<'
    ensures FinalNumeral(line) == EnclosedString(line, '>', '<')
  {
    assert LeadingAlpha(line) == "";
    var e := EnclosedString(line, '>', '<');
    if e.Some? {
      assert e.value + "" == e.value;
    }
  }

  /** The degree of the chord the given bass line ends on: the numeral of
      the first line with a `<function>` element, looked up; nothing when
      no line has one (the source exits) or the numeral is not in the
      table (the source throws). */
  function FinalDegree(lines: seq<string>): (r: Option<int>)
    ensures r.Some? ==> r.value in {1, 2, 4, 5, 6}
    ensures r.Some? ==> exists i | 0 <= i < |lines| :: Contains(lines[i], "<function>")
    ensures (forall i | 0 <= i < |lines| :: !Contains(lines[i], "<function>")) ==> r.None?
    ensures forall i | 0 <= i < |lines| && Contains(lines[i], "<function>") ::
              (forall j | 0 <= j < i :: !Contains(lines[j], "<function>")) ==> r == LineDegree(lines[i])
  {
    var i := SkipToLine(lines, 0, |lines|, "<function>", 1);
    if i == |lines| then None else LineDegree(lines[i])
  }

  /** The degree named on a chord's `<function>` line, if the table has it. */
  function LineDegree(line: string): (r: Option<int>)
    ensures r.Some? ==> r.value in {1, 2, 4, 5, 6}
  {
    match FinalNumeral(line)
    case None => None
    case Some(numeral) => NumeralDegree(numeral)
  }

  // ---------------------------------------------------------------------
  // One note (parser.cpp, note decoding)

  /** The `type` element's text as a duration in sixteenths; 0 for a type
      the parser does not know. */
  function TypeDuration(noteType: string): (d: int)
    ensures d in {0, 2, 4, 8, 16}
  {
    if noteType == "eighth" then 2
    else if noteType == "quarter" then 4
    else if noteType == "half" then 8
    else if noteType == "whole" then 16
    else 0
  }

  /** The accidentals spelled for an `alter` value: that many sharps when
      it is positive, that many flats otherwise. */
  function Accidentals(alter: int): (s: string)
    ensures |s| == Abs(alter)
    ensures forall i | 0 <= i < |s| :: s[i] == (if alter >= 1 then '#' else 'b')
  {
    Repeat(if alter >= 1 then '#' else 'b', Abs(alter))
  }

  /** A note from its elements' text: the step's first character names the
      letter (nothing when the text is empty or not one of A..G), the
      `alter` value, when present, adds semitones and accidentals, and the
      octave adds twelve semitones each. */
  function DecodeNote(step: string, alter: Option<string>, octave: string, noteType: string): (r: Option<Note>)
    ensures r.Some? <==> |step| > 0 && IsLetter(step[0]) && Stoi(octave).Some? && (alter.Some? ==> Stoi(alter.value).Some?)
    ensures r.Some? ==> |r.value.name| > 0 && r.value.name[0] == step[0]
    ensures r.Some? && alter.None? ==> r.value.name == [step[0]]
    ensures r.Some? && alter.None? ==> r.value.pitch == LetterPitch(step[0]) + 12 * Stoi(octave).value
    ensures r.Some? && alter.Some? ==>
              Stoi(alter.value).Some?
              && var a := Stoi(alter.value).value;
                 && r.value.name == [step[0]] + Accidentals(a)
                 && r.value.pitch == LetterPitch(step[0]) + a + 12 * Stoi(octave).value
    ensures r.Some? ==> r.value.duration == TypeDuration(noteType)
  {
    if |step| == 0 || !IsLetter(step[0]) then None
    else
      var a := if alter.Some? then Stoi(alter.value) else Some(0);
      if a.None? then None
      else
        match Stoi(octave)
        case None => None
        case Some(o) =>
          var name := [step[0]] + (if alter.Some? then Accidentals(a.value) else "");
          Some(Note(name, LetterPitch(step[0]) + a.value + 12 * o, TypeDuration(noteType)))
  }

  /** A note from the lines of its block the parser stops at: the `step`
      line, the `alter` line when there is one, the `octave` line and the
      `type` line, each read between '>' and '<'. */
  function DecodeNoteLines(stepLine: string, alterLine: Option<string>, octaveLine: string, typeLine: string): Option<Note>
  {
    var step := EnclosedString(stepLine, '>', '<');
    var alter := if alterLine.Some? then EnclosedString(alterLine.value, '>', '<') else Some("");
    var octave := EnclosedString(octaveLine, '>', '<');
    var noteType := EnclosedString(typeLine, '>', '<');
    if step.None? || alter.None? || octave.None? || noteType.None? then None
    else DecodeNote(step.value, if alterLine.Some? then Some(alter.value) else None, octave.value, noteType.value)
  }
}
