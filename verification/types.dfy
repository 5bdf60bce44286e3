/** The shared vocabulary of the program (types.h): notes, chords, the
    letter-to-pitch table, the bass range and leap limits, the inversion
    constants and the two scale interval tables. */
module Types {
  import opened Outcomes

  /** A note: a letter followed by accidentals ('#' or 'b'), an absolute
      semitone number, and a duration in sixteenth notes (whole = 16). */
  datatype Note = Note(name: string, pitch: int, duration: int)

  /** A chord: its scale degree (1..7, or the secondary-dominant sentinel),
      its tones from root upward, the degrees it may move to next, and which
      tone is voiced in the bass. The source keeps the destinations as
      pointers to the key's chords and only ever compares their degrees, so
      the model keeps the degrees. */
  datatype Chord = Chord(degree: int, notes: seq<Note>, destinations: seq<int>, inversion: int)

  const LowestBassPitch: int := 34
  const HighestBassPitch: int := 48
  const LargestBassLeap: int := 7

  const Root: int := 0
  const First: int := 1
  const Second: int := 2
  const Third: int := 3

  const SecondaryDomDegree: int := -1

  /** The natural letters A..G: the keys of the source's letter-to-pitch map. */
  predicate IsLetter(c: char)
  {
    'A' <= c <= 'G'
  }

  /** The letter at position `i` of that map's (alphabetical) iteration order. */
  function LetterAt(i: nat): (c: char)
    requires i < 7
    ensures IsLetter(c) && c as int == 'A' as int + i
  {
    (65 + i) as char
  }

  /** The letter map read with `operator[]`: the pitch class of a natural
      letter, and 0 for any other character (the default a missing key reads as). */
  function LetterPitch(c: char): int
  {
    if c == 'C' then 0
    else if c == 'D' then 2
    else if c == 'E' then 4
    else if c == 'F' then 5
    else if c == 'G' then 7
    else if c == 'A' then 9
    else if c == 'B' then 11
    else 0
  }

  datatype KeyQuality = Major | HarmonicMinor

  const MajorPitches: seq<int> := [2, 4, 5, 7, 9, 11, 12]
  const HarmonicMinorPitches: seq<int> := [2, 3, 5, 7, 8, 11, 12]

  function Abs(x: int): nat
  {
    if x < 0 then -x else x
  }

  /** Semitone distance of scale notes 2..8 above the tonic. */
  function ScaleOffsets(q: KeyQuality): (r: seq<int>)
    ensures |r| == 7 && r[6] == 12
    ensures forall i, j | 0 <= i < j < 7 :: 0 < r[i] < r[j]
  {
    if q == Major then MajorPitches else HarmonicMinorPitches
  }
}
