# Bass-line generator, modelled in Dafny

The program harmonises a soprano line taken from a MusicXML score. The user
writes the start of a bass line, names the key in an annotation, and writes
the Roman numeral of the chord the given bass ends on. The program then
completes the bass line: one bass note and one chord per remaining soprano
note.

The program has these parts:

- **Keys** (`types.cpp`). `Key`'s constructor builds the seven scale notes. It
  spells their names with sharps and flats and builds the seven diatonic
  chords, the V/V chord (the secondary dominant) and the progression graph
  between them. `possibleChords` finds the chords that hold given notes, and
  `getInversion` finds a bass note's inversion.
- **Voice leading** (`bassline_maker.cpp`):
  - `legalBassPitch` picks the lowest legal bass pitch for a move, or none.
  - `validInversion` restricts inversions.
  - `generateDestinations` lists a chord node's children: every possible
    chord in every inversion.
- **The chord tree** (`bassline_maker.cpp`). `explore` runs a randomised
  backtracking depth-first walk. `getPath` and the tree's constructor seed
  and read that walk. `writeBassLine` aligns the given bass line with the
  soprano and starts the walk.
- **Text** (`file_util.cpp`, `output_writer.cpp`, `parser.cpp`):
  - building and reading one MusicXML element;
  - writing a note's and a chord's element lines, and grouping them into
    measures;
  - decoding the key name, the final numeral and each note.

The Dafny modules follow those parts:

- `Outcomes` holds `Option` and `Result`.
- `Strings` holds substring search and the integer-to-text conversions
  (`std::to_string`, `std::stoi`).
- `Types` models `types.h`.
- `Keys` models `types.cpp`.
- `VoiceLeading` models the chord moves.
- `Backtracking` is the walk. It is generic in the node and note types, and
  the random number generator is a parameter `rng: nat -> nat`. Draw `k`
  picks index `rng(k) % n` among the `n` unexplored children.
- `Search` instantiates the walk with the voice-leading rules and models
  `getPath`, the constructor and `writeBassLine`.
- `FileUtil`, `OutputWriter` and `Parser` model the text parts.
- `RoundTrip` relates the writer to the parser.

Where the program throws or exits, the model returns `None` or an `Err`.
This covers `std::map::at` on a missing key, `std::stoi` on text that is not
a number, "I couldn't solve this one" and a misaligned given bass line. It
also covers the inputs for which the program's behaviour is undefined:
`enclosedString` without its delimiters, a given bass line that lasts as
long as the soprano line or longer, and an empty given bass line that aligns.

The main results:

- `Backtracking.ExploreDecides` and `Search.GetPathDecides`: the walk finds a
  line exactly when a legal line exists, whatever the random draws.
- `Search.GetPathSound`: every line it returns obeys the voice-leading rules
  that `legalBassPitch` and the chord choice check, note by note.
- `VoiceLeading.LegalBassPitchMeaning`: the pitch rules, and that the chosen
  pitch is the lowest legal one.
- `Keys.MakeKey`, `Keys.ScaleSpelling` and `Keys.ScaleLettersDistinct`: the
  spelled scale uses seven distinct letters, and each note is the letter's
  pitch moved by the accidentals.
- `OutputWriter.MeasuresBalanced`: the written measures are balanced.
- `RoundTrip.NoteRoundTrip`: a written note reads back as itself. This holds
  only with the corrected octave. As written, a flat note reads back an
  octave low; see Findings.

## Model

| member | source | states |
|---|---|---|
| Types.LetterAt | types.h:12-20 | The i-th key of `pitches` in map order is the letter 'A' + i, so the letters are ordered A..G. |
| Types.ScaleOffsets | types.h:51-56 | The two interval tables each hold seven strictly increasing positive offsets from the tonic, ending at the octave (12). |
| Keys.FindLetter | types.cpp:41-53 | The position of a character among the seven letters. It is below 7 exactly when the character is a letter, and that position holds the character. |
| Keys.SupertonicLetterIndex | types.cpp:41-53 | The supertonic's letter is the tonic's letter's successor, wrapping from G to A. |
| Keys.NameLetters | types.cpp:59-65 | Naming the six upper scale notes yields six letters. |
| Keys.NameLetterAt | types.cpp:59-65 | The j-th named letter is the letter j places after the start, counted cyclically through A..G. |
| Keys.NameLettersCycle | types.cpp:59-65 | Every named letter is the start's letter shifted cyclically by its position. |
| Keys.LastValueIsGreatestKey | types.cpp:68 | `rbegin()->second` is the value stored under the greatest letter in the map. |
| Keys.SortedPitchesWrap | types.cpp:56-73 | After the naming loop, `sortedPitches` holds all seven letters. Each letter's value is its pitch, raised an octave when the letter comes before the tonic's letter. |
| Keys.SortedStep | types.cpp:63-72 | One naming step adds a new letter at its pitch, one octave up exactly when that pitch is below the greatest stored letter's value. It keeps the map's invariant. |
| Keys.SortedPitchesInvariant | types.cpp:59-73 | The remaining naming steps carry the partial map to the full wrapped pitch table. |
| Keys.AccidentalsFor | types.cpp:80-90 | A pitch difference becomes that many sharps when it is positive and that many flats when it is negative. |
| Keys.Spell | types.cpp:77-91 | A scale note keeps its pitch and duration. Its name gains the accidentals for the gap between its pitch and its letter's sorted pitch. |
| Keys.UnspelledScale | types.cpp:22-37 | Before spelling, the scale is the tonic followed by six bare letters, at the tonic's pitch plus the quality's offsets. |
| Keys.Scale | types.cpp:22-91 | The spelled scale has seven notes: the tonic's pitch, then the tonic plus each offset. |
| Keys.SpellAll | types.cpp:77-91 | Every scale note is spelled the same way, and its name stays non-empty. |
| Keys.DiatonicChord | types.cpp:94-108 | Chord i+1 stacks thirds from scale note i (root, third, fifth), adds a seventh on degrees 2 and 5, and starts in root position. |
| Keys.RaisedName | types.cpp:111-116 | The subdominant raised a semitone loses a trailing flat, or gains a sharp. |
| Keys.SecondaryDominant | types.cpp:110-119 | V/V has degree −1 and holds the supertonic, the raised subdominant (one semitone up) and the submediant. |
| Keys.MakeKey | types.cpp:14-128 | The key is valid and major exactly for the major quality. It has the scale's pitches, the diatonic chords built from its scale and V/V built from its scale. |
| Keys.ScaleNoteSpelling | types.cpp:56-91 | Scale note i is named with the letter i places after the tonic's, plus the accidentals that move that letter's pitch to the note's pitch. |
| Keys.ScaleSpelling | types.cpp:56-91 | Every note of a key's scale is spelled that way. |
| Keys.ScaleLettersDistinct | types.cpp:56-91 | The seven scale notes of a key start with seven different letters. |
| Keys.ChordAt | types.cpp:130-132 | `key[idx]` is the diatonic chord on degree idx+1, in root position, with that degree's destinations. |
| Keys.HasName | types.cpp:141-146 | The inner loop finds a chord note with the given name exactly when one exists. |
| Keys.IsContainedMeans | types.cpp:138-152 | `isContained` holds exactly when every given note's name is among the chord's note names. |
| Keys.CandidateOrder | types.cpp:155-167 | The seven candidates, in the order they are tried, have ranks 0..6. |
| Keys.FilterContained | types.cpp:155-167 | Filtering keeps exactly the candidates that contain the notes, and a rank-sorted list stays rank-sorted. |
| Keys.PossibleChords | types.cpp:134-170 | The result holds exactly the key's candidates that contain the notes, never the degree-3 chord, in the order degrees 1, 2, 4, 5, 6, 7, then V/V. |
| Keys.GetInversion | types.cpp:4-12 | The inversion is the first chord position whose name equals the bass note's name, and root position when there is none. |
| Keys.ProgressionGraph | types.cpp:121-127 | The progression graph never leads to degree 3, never from a chord to itself, and never from V/V to V/V. The iii chord has no destinations. |
| VoiceLeading.FirstPlacement | bassline_maker.cpp:29-67 | A placement found by the octave search is within the bass range, at or above the start and passes every pitch rule. |
| VoiceLeading.FirstPlacementLowest | bassline_maker.cpp:29-67 | The search returns the lowest legal pitch of the start's pitch class. When it finds none, no pitch of that class in range passes. |
| VoiceLeading.OctaveStep | bassline_maker.cpp:31-38 | Moving by an octave keeps the pitch class, and no other pitch less than an octave above shares it. |
| VoiceLeading.LegalBassPitchMeaning | bassline_maker.cpp:3-68 | The chosen pitch is within 34..48 in the voiced note's pitch class. It leaps at most a fifth, never a tritone. It resolves the leading tone up a semitone to the tonic, steps down after a third inversion, makes no parallel fifth with the soprano and does not collide. It is the lowest such pitch. None exactly when the notes collide, the leading tone cannot resolve, or no pitch of the class passes. |
| VoiceLeading.ValidInversionTable | bassline_maker.cpp:70-109 | `validInversion` is equivalent to its table: root position on the last note and after vi, no third inversion after V/V, and the per-degree sets of allowed inversions. |
| VoiceLeading.SeventhDegreeNeverAccepted | bassline_maker.cpp:103-105 | No chord on degree 7 is accepted in any inversion, because case 7 compares the degree itself with `FIRST`. |
| VoiceLeading.AcceptedInversionInBounds | bassline_maker.cpp:70-109 | An accepted inversion always names a note the chord has, so the voiced note exists. |
| VoiceLeading.Moves | bassline_maker.cpp:111-135 | The chord moves are exactly the key's candidates that hold the next soprano note and are destinations of the cursor's chord, in candidate order. |
| VoiceLeading.FilterDegrees | bassline_maker.cpp:120-135 | Keeping only the destination degrees keeps exactly the chords whose degree is listed, in order. |
| VoiceLeading.WithInversions | bassline_maker.cpp:136-143 | Every chord appears four times in a row, in inversions 0..3, on the next soprano note. |
| VoiceLeading.GenerateDestinations | bassline_maker.cpp:111-144 | The children are the moves, each in inversions 0..3, at the next soprano note. |
| VoiceLeading.DestinationsSound | bassline_maker.cpp:111-144 | Every child is one note further, has inversion 0..3, is a candidate chord of the key and holds the next soprano note. |
| VoiceLeading.DestinationsComplete | bassline_maker.cpp:111-144 | Every candidate that holds the next soprano note and is a destination of the cursor's chord appears as a child, in every inversion. |
| VoiceLeading.ChildVoicingInBounds | bassline_maker.cpp:190-208 | A child that passes `validInversion` has a note at its inversion, so `notes[inversion]` is safe. |
| Backtracking.Pick | bassline_maker.cpp:180-187 | A draw picks an index among the unexplored children. |
| Backtracking.Without | bassline_maker.cpp:160-166 | Marking the drawn child explored removes exactly that child and keeps the others in order. |
| Backtracking.ExploreSound | bassline_maker.cpp:146-219 | Whatever the draws, a solved walk is a path: each step goes to a child the rules accept, with the note they give, until the goal. |
| Backtracking.ExploreComplete | bassline_maker.cpp:146-219 | When any path to the goal exists, the walk does not exhaust, whatever the draws. |
| Backtracking.ExploreDecides | bassline_maker.cpp:146-219 | The walk succeeds exactly when the start can be completed. |
| Backtracking.SuccessIgnoresDraws | bassline_maker.cpp:180-187 | Whether the walk succeeds does not depend on the random draws. |
| Backtracking.PathLength | bassline_maker.cpp:213-214 | A path fills the stacks exactly up to the goal. |
| Backtracking.PathMoveAt | bassline_maker.cpp:204-211 | Each step of a path is a child of the node before it, and the rules give its note. |
| Backtracking.MovesMakePath | bassline_maker.cpp:204-214 | A sequence of accepted moves of the right length is a path. |
| Search.BassNote | bassline_maker.cpp:207-210 | The pushed bass note is named after the chord note in the bass, sits at the chosen pitch and lasts as long as the soprano note. |
| Search.TryChild | bassline_maker.cpp:190-210 | Trying a child advances one soprano note, and a produced note lasts as long as that soprano note. |
| Search.TakeIsStep | bassline_maker.cpp:187-211 | A move of the walk is exactly a legal step: a generated child that passes `validInversion`, with the pitch `legalBassPitch` gives. |
| Search.StepFacts | bassline_maker.cpp:3-144 | A legal step advances one soprano note, moves to a chord among the previous chord's destinations, stays in range, voices a chord tone, holds the soprano note, never uses degree 7 and ends in root position. Its bass note, after the previous one, leaps at most a fifth and never a tritone, takes the leading tone up a semitone to the tonic, falls a semitone after a chord in third inversion, makes no rising fifth together with the soprano, and never repeats the soprano's note names in the bass on both notes. |
| Search.LineNoteAt | bassline_maker.cpp:204-211 | The k-th chord of a legal line sits on the k-th soprano note after the start. |
| Search.LineNoteSounds | bassline_maker.cpp:3-211 | Every note of a legal line sounds right under its soprano note, and it obeys the pitch rules of `legalBassPitch` after the note and chord before it. Its chord is among that chord's destinations. |
| Search.BeforeOnLine | bassline_maker.cpp:204-211 | The node a move of a legal line starts from sits one soprano note earlier and holds the previous chord of the line, or the seed chord for the first move. |
| Search.LineSounds | bassline_maker.cpp:3-211 | A whole legal line sounds right and moves right note by note, starting from the seed note and chord. Each chord is among the destinations of the chord before it. |
| Search.PathIsLegal | bassline_maker.cpp:146-219 | A path of the walk is a legal line. |
| Search.LegalIsPath | bassline_maker.cpp:146-219 | A legal line is a path of the walk. |
| Search.ChordsOf | bassline_maker.cpp:211 | The chord stack holds each node's chord, in order. |
| Search.GetPathDecides | bassline_maker.cpp:221-246 | `getPath` returns a legal continuation of the given bass line exactly when one exists, with the chords of that line. |
| Search.GetPathSound | bassline_maker.cpp:221-246 | Each chord `getPath` returns is among the destinations of the chord before it (the seed chord first), holds its soprano note's name, voices its bass note's name, is not on degree 7, and is in root position at the end. Each bass note is in range and lasts as long as its soprano note. Each bass note, after the previous one (the seed first), leaps at most a fifth and never a tritone, takes the leading tone up a semitone to the tonic, falls a semitone after a chord in third inversion, makes no rising fifth together with the soprano, and never repeats the soprano's note names in the bass on both notes. |
| Search.AlignStartMeaning | bassline_maker.cpp:258-268 | The start is the soprano note at whose end the given bass line's beats are first reached exactly. Misaligned means a soprano note passes the target. Outlasting means the whole soprano is shorter. |
| Search.TreeFor | bassline_maker.cpp:234-246 | The tree seeded at an aligned start, with the goal of one chord per remaining soprano note plus the seed, is a valid tree. |
| Search.WriteBassLineAligned | bassline_maker.cpp:248-291 | `writeBassLine` fails when alignment fails, writes nothing when the given line already ends with the soprano, and otherwise returns `getPath` of the tree seeded with the last given bass note and the final chord. An empty given line is misaligned whenever the first soprano note has a positive duration. |
| Search.WriteBassLineSound | bassline_maker.cpp:248-291 | A written continuation is aligned, follows a non-empty given line, starts after the last given bass note and the final chord, and obeys the same per-note rules as `getPath`'s result. |
| Search.WriteBassLineFails | bassline_maker.cpp:248-291 | `writeBassLine` reports an unsolvable line exactly when the alignment succeeds with soprano notes left after a given bass note but no legal continuation exists. |
| FileUtil.MakeAttribute | file_util.cpp:27-29 | The element is the opening tag, the body verbatim and the closing tag. |
| FileUtil.FirstIndex | file_util.cpp:20 | The first position at or after `from` holding the character, or none when no such position exists. |
| FileUtil.EnclosedString | file_util.cpp:18-25 | The text runs from after the first left delimiter up to the next right delimiter, and holds no right delimiter. It is present exactly when both delimiters occur in that order. |
| FileUtil.EnclosedAttribute | file_util.cpp:18-29 | Reading an element between '>' and '<' gives back its body exactly when the body holds no '<'. |
| FileUtil.SkipToEitherLine | file_util.cpp:4-8 | The cursor stops at the first line mentioning either text, or at the end, passing only lines mentioning neither. |
| FileUtil.SkipToEitherLineIdempotent | file_util.cpp:4-8 | Skipping from where a skip stopped does not move. |
| FileUtil.SkipToLine | file_util.cpp:11-15 | Forwards or backwards, the cursor stops at the first line mentioning the text or at the end it was given, passing only non-matching lines. |
| FileUtil.SkipToLineStays | file_util.cpp:11-15 | A cursor already on a matching line stays. |
| FileUtil.SkipToLineIdempotent | file_util.cpp:11-15 | Skipping from where a skip stopped does not move. |
| OutputWriter.Div12 | output_writer.cpp:48-52 | Integer division by 12 truncates toward zero, as in C++. |
| OutputWriter.Alteration | output_writer.cpp:37-44 | The alteration counts the accidentals, negative exactly for flats. |
| OutputWriter.NoteDataWith | output_writer.cpp:27-87 | A note block is `<note>`, `<pitch>`, the step, the alter line for accidentals only, the octave, `</pitch>`, duration 1, voice 1, the type, staff 1 and `</note>`. |
| OutputWriter.ChordKindMeaning | output_writer.cpp:98-108 | The kind is "dominant" for V in third inversion. Otherwise it is minor or major by the numeral's case, with "-seventh" for third inversion. The second-inversion clause can never hold. |
| OutputWriter.ChordData | output_writer.cpp:89-116 | A harmony block holds the function numeral (twice for V/V), the kind, the inversion and staff 1. |
| OutputWriter.NoteBlocks | output_writer.cpp:139-143 | Each note's lines are its chord's harmony block followed by its note block, with the octave as `writeNoteData` computes it. |
| OutputWriter.NaturalWrittenAsIs | output_writer.cpp:37-56 | The note block `writeNoteData` writes equals the one with the octave the parser reads back exactly when the two octaves agree, and always for a name without accidentals. |
| OutputWriter.MeasureLines | output_writer.cpp:124-151 | The loop's output is, per note, a closing tag when the measure is full, an opening tag with the next number when a measure starts, and the note's lines, then a final `</measure>`. |
| OutputWriter.MeasureStep | output_writer.cpp:128-145 | One iteration keeps the beat count and measure number the loop's invariant describes. |
| OutputWriter.TurnLines | output_writer.cpp:129-142 | One turn writes `</measure>` exactly when the count is full, then the opening tag, numbered after that close, exactly when the restarted count is zero, then the note's data. |
| OutputWriter.TalliedBlocks | output_writer.cpp:124-145 | After any number of turns, the loop's beat count, measure number and lines are the ones that the per-note rules (full measure, fresh measure, number so far) give. |
| OutputWriter.CountAppend | output_writer.cpp:124-151 | Counting measure tags distributes over concatenation. |
| OutputWriter.ChordDataPlain | output_writer.cpp:89-116 | A harmony block holds no measure tags. |
| OutputWriter.NoteDataPlain | output_writer.cpp:27-87 | A note block holds no measure tags. |
| OutputWriter.NoteBlocksArePlain | output_writer.cpp:139-143 | No note's lines hold a measure tag. |
| OutputWriter.BlocksCount | output_writer.cpp:124-146 | The tags written so far are one opening per started measure and one closing per full measure. |
| OutputWriter.OpensExactlyAfterClose | output_writer.cpp:129-137 | With positive durations, one more measure has been opened than closed. |
| OutputWriter.MeasuresBalanced | output_writer.cpp:124-151 | The written lines open and close the same number of measures, one more than the number of full measures. |
| Parser.DecodeKeyName | parser.cpp:73-90 | A key name decodes exactly when its upper-cased first character is a letter. The tonic is that bare letter. The key is harmonic minor exactly when the first character is lower case. The tonic's pitch is the letter's pitch, moved one semitone per character after the first: down when the second character is 'b', up otherwise. |
| Parser.ParseKey | parser.cpp:73-90 | A key is built exactly when the key name decodes. |
| Parser.KeyNameRoundTrip | parser.cpp:73-90 | The name of a key with a letter, a quality and an alteration decodes to that quality and the letter's pitch moved by the alteration. |
| Parser.NumeralDegree | parser.h:13-22 | A numeral has a degree exactly when it is one of I, ii, IV, iv, V, v, VI, vi. I gives 1, ii gives 2, IV and iv give 4, V and v give 5, VI and vi give 6. Any other text has none. |
| Parser.LeadingAlpha | parser.cpp:62-68 | The longest run of letters at the start of the line. |
| Parser.FinalNumeralIsEnclosed | parser.cpp:61-68 | On a line that starts with a tag, the numeral is exactly the enclosed text. |
| Parser.FinalDegree | parser.cpp:53-70 | The final degree is one of 1, 2, 4, 5 and 6. There is none when no line has a `<function>` element. Otherwise it is the degree named on the first such line. |
| Parser.TypeDuration | parser.cpp:150-163 | Note types map to 2, 4, 8 or 16 sixteenths, unknown ones to 0. |
| Parser.Accidentals | parser.cpp:123-129 | An alteration spells as many accidentals as its magnitude: all '#' when it is 1 or more, all 'b' otherwise. |
| Parser.DecodeNote | parser.cpp:113-164 | A note decodes exactly when the step starts with a letter and the octave and any alteration are numbers. Its name is the letter plus the alteration's accidentals. Its pitch is the letter's pitch plus the alteration plus 12 per octave. Its duration comes from the type. |
| RoundTrip.TypeRoundTrip | output_writer.cpp:65-82 | Writer type names and parser durations are mutual inverses on 2, 4, 8, 16. |
| RoundTrip.AttributesReadBack | parser.cpp:113-151 | The parser reads back from the writer's element lines exactly the texts the writer put in them. |
| RoundTrip.DecodeWritten | parser.cpp:113-164 | The writer's texts for a note in a given octave decode to the note's letter and accidentals in that octave. |
| RoundTrip.BlockReadsBack | output_writer.cpp:27-87 | A note block written with octave o reads back as the note placed in octave o. |
| RoundTrip.NoteRoundTrip | output_writer.cpp:27-87 | With the corrected octave, every spelled note of a known type in a non-negative octave reads back as itself. |
| RoundTrip.FlatOctaveAsWritten | output_writer.cpp:48 | As written, the octave of a flat note in octave 1 or above comes out one too low. |
| RoundTrip.FlatReadsBackLower | output_writer.cpp:48 | As written, such a note reads back an octave below itself. |
| RoundTrip.BFlatAsWritten | output_writer.cpp:48 | B-flat at pitch 46 is written in octave 2 rather than 3 and reads back as pitch 34. The corrected writer gives back pitch 46. |
| RoundTrip.FunctionLineReadsBack | parser.cpp:53-70 | A written `function` line reads as its numeral's degree. |
| RoundTrip.NumeralRoundTrip | output_writer.cpp:94-97 | A chord's written numeral reads back as its degree exactly when the parser's table holds it (V/V reads as 5). |
| Strings.NatToStringValue | output_writer.cpp:49 | The decimal text of a natural number denotes that number. |
| Strings.StoiIntToString | parser.cpp:132 | `std::stoi` of `std::to_string(n)` is n. |

## Left out

- File I/O is not modelled: reading the score, loading part data, splicing
  the lines into the output file and console messages. Operations take and
  return sequences of lines. `main.cpp` is not part of this model.
- Parsing outside parser.cpp:53-90 and 113-164 is not modelled: the key
  annotation's search, part splitting and the outer `<step>` loop. The same
  holds for the line-splicing parts of output_writer.cpp outside 27-151.
- `std::random_device` and `mt19937` are not modelled. The draws are the
  function `rng`, so every property is stated for all draws.
- The static stacks, `explored` flags and `previous` pointers are not
  modelled as shared state. The walk carries the stacks explicitly, and
  backtracking pops them on return. Each node's unexplored children are a
  sequence that shrinks as children are tried.
- Exits and throws become `None` or `Err`. These are "I couldn't solve this
  one", the misaligned given line, `map::at` and `std::stoi`.
- Search.WriteBassLine: `Err(OutlastsSoprano)` and `Err(NothingToWrite)`
  stand for inputs where the program's behaviour is undefined. In one the
  loop runs off the soprano line. In the other the goal can never be reached
  and the walk reads past the soprano's end.
- Search.WriteBassLine: `Err(NoLastBassNote)` stands for an empty given
  bass line that still aligns, which happens only when the soprano line
  starts with a zero-length note. The program then calls `back()` on the
  empty vector, which is undefined. Any other empty given line takes the
  misaligned exit, as the program does.
- FileUtil.EnclosedString answers `None` where `enclosedString` reads past
  the end of the string.
- `lastChordNotes` (bassline_maker.cpp:275-282) is computed but never used,
  so it is not modelled.
- Text is a sequence of bytes: one Dafny `char` stands for one byte of a
  `std::string`, and there is no Unicode decoding. So a key name written
  with the flat sign "♭" (three bytes in UTF-8) counts as three trailing
  characters, as `keyName.size()` counts them.
- Integers are unbounded. The 32-bit range of `int` and `std::stoi`'s
  out-of-range exception are not modelled, nor is `size_t` wrap-around
  outside the undefined cases above.
- OutputWriter.MeasureLines takes each note's lines as a parameter.
  `OutputWriter.NoteBlocks` builds them as the program does, with the octave
  as written. The round trip from the written score back to the notes is
  proved for the corrected `OutputWriter.NoteData` (see Findings).
  `OutputWriter.NaturalWrittenAsIs` shows the two agree for every note
  without accidentals.
- OutputWriter.MeasuresBalanced assumes positive durations. A note of an
  unknown type has duration 0 and can leave a measure open.
- Search.GetPathSound states the rules per note. Its contract does not
  repeat `validInversion`'s per-degree table, which
  `VoiceLeading.ValidInversionTable` states. It does not repeat that each
  pitch is the lowest legal one a whole number of octaves above the chord
  tone either, which `VoiceLeading.LegalBassPitchMeaning` states.
- Two conditions in the source can never hold, and the model follows the
  code. `validInversion`'s case 7 compares the degree with `FIRST`, so it
  never accepts degree 7 (`VoiceLeading.SeventhDegreeNeverAccepted`).
  `writeChordData` tests `degree == 2 && degree == 5` for second inversion
  (`OutputWriter.ChordKindMeaning`). Neither changes a property the program
  promises, so neither is listed as a finding.

## Findings

| source | as written | input that shows it | evidently intended | confidence | as-written member | corrected member |
|---|---|---|---|---|---|---|
| output_writer.cpp:48 | A note with accidentals gets octave `(pitch + alteration − letterPitch) / 12`, adding the alteration. | "Bb" at pitch 46 (octave 3): (46 − 1 − 11) / 12 = 2, so the score reads back pitch 34. | Subtract it: `(pitch − alteration − letterPitch) / 12`. This undoes the accidentals and gives octave 3. Every flat note in octave 1 or above is affected. | not executed | RoundTrip.FlatReadsBackLower | RoundTrip.NoteRoundTrip |
