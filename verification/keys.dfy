/** A key (types.cpp): the seven scale notes built from a tonic and a
    quality, their spelling, the seven diatonic chords, the secondary
    dominant, the fixed progression graph, and the chord lookups the search
    asks of a key. */
module Keys {
  import opened Outcomes
  import opened Strings
  import opened Types

  /** `scale` holds the seven spelled scale notes; `chords[i]` is the chord on
      degree i + 1; `major` is the flag the output writer reads. */
  datatype Key = Key(major: bool, scale: seq<Note>, chords: seq<Chord>, secondaryDominant: Chord)

  /** The fixed progression graph: the degrees a chord of each degree may
      move to. Degree 3 moves nowhere. */
  function DestinationDegrees(degree: int): seq<int>
  {
    if degree == 1 then [4, 5, 6, 7, SecondaryDomDegree]
    else if degree == 2 then [5, 7]
    else if degree == 4 then [1, 2, 5]
    else if degree == 5 then [1, 6, SecondaryDomDegree]
    else if degree == 6 then [2, 4, 5]
    else if degree == 7 then [1]
    else if degree == SecondaryDomDegree then [5, 6]
    else []
  }

  /** The shape every constructed key has: what the search relies on. */
  predicate ValidKey(k: Key)
  {
    && |k.scale| == 7
    && |k.chords| == 7
    && (forall i | 0 <= i < 7 ::
          && k.chords[i].degree == i + 1
          && k.chords[i].inversion == Root
          && |k.chords[i].notes| == (if i == 1 || i == 4 then 4 else 3)
          && k.chords[i].destinations == DestinationDegrees(i + 1))
    && k.secondaryDominant.degree == SecondaryDomDegree
    && k.secondaryDominant.inversion == Root
    && |k.secondaryDominant.notes| == 3
    && k.secondaryDominant.destinations == DestinationDegrees(SecondaryDomDegree)
  }

  // ---------------------------------------------------------------------
  // Letter names

  /** Position of `c` in the letter map's iteration order, or 7 (the map's
      end) when `c` is not one of its keys. */
  function FindLetter(c: char): (i: nat)
    ensures i <= 7
    ensures i < 7 <==> IsLetter(c)
    ensures i < 7 ==> LetterAt(i) == c
  {
    if IsLetter(c) then c as int - 'A' as int else 7
  }

  /** Where the naming walk starts: one past the tonic's letter, wrapping
      from G to A; the map's first entry when the letter is not found. */
  function SupertonicLetterIndex(tonicLetter: char): (i: nat)
    ensures i < 7
    ensures IsLetter(tonicLetter) ==> i == Wrap7(FindLetter(tonicLetter) + 1)
  {
    var t := FindLetter(tonicLetter);
    if t == 7 then 0 else if t + 1 == 7 then 0 else t + 1
  }

  /** One step along the letter cycle from position `n` (below 14). */
  function Wrap7(n: nat): (r: nat)
    requires n < 14
    ensures r < 7
  {
    if n >= 7 then n - 7 else n
  }

  /** The walk's letter `j` from a position on the cycle, for short walks. */
  lemma NameLetterWrap(at: nat, count: nat, j: nat)
    requires at < 7 && j < count <= 7
    ensures NameLetters(at, count)[j] == LetterAt(Wrap7(at + j))
  {
    NameLetterAt(at, count, j);
    assert (at + j) % 7 == Wrap7(at + j);
  }

  /** The iterator walk of the naming loop: `count` letters from position
      `at`, jumping back to the first letter whenever the end is reached. */
  function NameLetters(at: nat, count: nat): (r: seq<char>)
    requires at <= 7
    ensures |r| == count
    ensures forall i | 0 <= i < count :: IsLetter(r[i])
    decreases count
  {
    if count == 0 then []
    else
      var idx := if at == 7 then 0 else at;
      [LetterAt(idx)] + NameLetters(idx + 1, count - 1)
  }

  lemma {:induction false} NameLetterAt(at: nat, count: nat, j: nat)
    requires at <= 7 && j < count
    ensures NameLetters(at, count)[j] == LetterAt((at + j) % 7)
    decreases j
  {
    var idx := if at == 7 then 0 else at;
    var r := NameLetters(at, count);
    assert r == [LetterAt(idx)] + NameLetters(idx + 1, count - 1);
    if j > 0 {
      NameLetterAt(idx + 1, count - 1, j - 1);
      assert r[j] == NameLetters(idx + 1, count - 1)[j - 1];
      ShiftMod(at, j);
    } else {
      ShiftMod(at, 0);
    }
  }

  /** The index arithmetic of one walk step, including the jump from the
      end back to the first letter. */
  lemma ShiftMod(at: nat, j: nat)
    requires at <= 7
    ensures var idx := if at == 7 then 0 else at;
            && (at + 0) % 7 == idx % 7
            && (j > 0 ==> (idx + 1 + (j - 1)) % 7 == (at + j) % 7)
  {
    if at == 7 {
      assert at + j == j + 7;
    }
  }

  /** The naming walk visits the letters cyclically: the j-th letter is
      `at + j` positions along the alphabet, wrapping G to A. */
  lemma NameLettersCycle(at: nat, count: nat)
    requires at <= 7
    ensures forall j | 0 <= j < count :: NameLetters(at, count)[j] == LetterAt((at + j) % 7)
  {
    forall j | 0 <= j < count
      ensures NameLetters(at, count)[j] == LetterAt((at + j) % 7)
    {
      NameLetterAt(at, count, j);
    }
  }

  // ---------------------------------------------------------------------
  // The octave-adjusted letter pitches (`sortedPitches`)

  /** std::map's `operator[]` on a map of ints: an absent key reads as 0. */
  function Lookup(m: map<char, int>, c: char): int
  {
    if c in m then m[c] else 0
  }

  predicate LetterKeys(m: map<char, int>)
  {
    forall c | c in m :: IsLetter(c)
  }

  /** `rbegin()->second`: the value at the greatest key. Keys compare as
      characters, so this is the alphabetically last letter present, not the
      one inserted last. */
  function LastValue(m: map<char, int>): int
  {
    if 'G' in m then m['G']
    else if 'F' in m then m['F']
    else if 'E' in m then m['E']
    else if 'D' in m then m['D']
    else if 'C' in m then m['C']
    else if 'B' in m then m['B']
    else if 'A' in m then m['A']
    else 0
  }

  /** On a non-empty map over letters, `LastValue` is the value at the greatest key. */
  lemma LastValueIsGreatestKey(m: map<char, int>)
    requires LetterKeys(m) && |m| > 0
    ensures exists c | c in m :: LastValue(m) == m[c] && forall c' | c' in m :: c' <= c
  {
    var c0 :| c0 in m;
    assert IsLetter(c0);
    var c: char :=
      if 'G' in m then 'G' else if 'F' in m then 'F' else if 'E' in m then 'E'
      else if 'D' in m then 'D' else if 'C' in m then 'C' else if 'B' in m then 'B' else 'A';
    assert c in m;
    forall c' | c' in m
      ensures c' <= c
    {
      assert IsLetter(c');
    }
    assert LastValue(m) == m[c];
  }

  /** The naming loop's bookkeeping: each new letter gets its natural pitch,
      plus an octave when that is below the value at the map's greatest key;
      `emplace` leaves an existing entry alone. */
  function SortedPitches(names: seq<char>, m: map<char, int>): map<char, int>
    decreases |names|
  {
    if |names| == 0 then m
    else
      var name := names[0];
      var pitch := LetterPitch(name);
      var placed := if pitch < LastValue(m) then pitch + 12 else pitch;
      SortedPitches(names[1..], if name in m then m else m[name := placed])
  }

  /** A letter's pitch lifted by an octave when it lies below the tonic
      letter's: the plain-letter scale from the tonic upward. */
  function WrappedLetterPitch(c: char, tonicLetter: char): int
  {
    if LetterPitch(c) < LetterPitch(tonicLetter) then LetterPitch(c) + 12 else LetterPitch(c)
  }

  /** The bookkeeping map after the naming loop, starting from the tonic's
      letter at its natural pitch. */
  function TonicSortedPitches(tonicLetter: char): map<char, int>
    requires IsLetter(tonicLetter)
  {
    var names := NameLetters(SupertonicLetterIndex(tonicLetter), 6);
    SortedPitches(names, map[tonicLetter := LetterPitch(tonicLetter)])
  }

  /** Offset of letter position `i` from the tonic's position `t` along the
      cycle A..G. */
  function CycleOffset(i: nat, t: nat): nat
    requires i < 7 && t < 7
  {
    if i >= t then i - t else i + 7 - t
  }

  function PitchAt(i: nat): int
    requires i < 7
  {
    LetterPitch(LetterAt(i))
  }

  function WrappedAt(i: nat, t: nat): int
    requires i < 7 && t < 7
  {
    if PitchAt(i) < PitchAt(t) then PitchAt(i) + 12 else PitchAt(i)
  }

  /** After `k` naming steps from tonic position `t`, the bookkeeping map
      holds exactly the letters at offsets 0..k, each at its wrapped pitch. */
  predicate SortedInvariant(m: map<char, int>, t: nat, k: nat)
    requires t < 7
  {
    && LetterKeys(m)
    && forall i | 0 <= i < 7 :: Slot(m, t, k, i)
  }

  /** The letter at position `i` is in the map exactly when it is among
      the first `k` steps from the tonic, and then at its wrapped pitch. */
  predicate Slot(m: map<char, int>, t: nat, k: nat, i: nat)
    requires t < 7 && i < 7
  {
    && (LetterAt(i) in m <==> CycleOffset(i, t) <= k)
    && (LetterAt(i) in m ==> m[LetterAt(i)] == WrappedAt(i, t))
  }

  lemma LastValueUnderInvariant(m: map<char, int>, t: nat, k: nat)
    requires t < 7 && k < 7 && SortedInvariant(m, t, k)
    ensures LastValue(m) == WrappedAt(if t + k <= 6 then t + k else 6, t)
  {
    var g := if t + k <= 6 then t + k else 6;
    assert Slot(m, t, k, g);
    assert LetterAt(g) in m;
    assert m[LetterAt(g)] == WrappedAt(g, t);
    forall j | g < j < 7
      ensures LetterAt(j) !in m
    {
      assert Slot(m, t, k, j);
      assert CycleOffset(j, t) > k;
    }
    assert LetterAt(6) == 'G' && LetterAt(5) == 'F' && LetterAt(4) == 'E' && LetterAt(3) == 'D';
    assert LetterAt(2) == 'C' && LetterAt(1) == 'B' && LetterAt(0) == 'A';
  }

  /** The comparison the naming loop makes against the greatest key agrees,
      for every tonic and step, with a comparison against the tonic letter. */
  lemma GreatestKeyComparison(t: nat, k: nat)
    requires t < 7 && k < 6
    ensures var c := Wrap7(t + k + 1);
            (PitchAt(c) < WrappedAt(if t + k <= 6 then t + k else 6, t)) <==> (PitchAt(c) < PitchAt(t))
  {
    assert LetterAt(6) == 'G' && LetterAt(5) == 'F' && LetterAt(4) == 'E' && LetterAt(3) == 'D';
    assert LetterAt(2) == 'C' && LetterAt(1) == 'B' && LetterAt(0) == 'A';
    assert PitchAt(0) == 9 && PitchAt(1) == 11 && PitchAt(2) == 0 && PitchAt(3) == 2;
    assert PitchAt(4) == 4 && PitchAt(5) == 5 && PitchAt(6) == 7;
  }

  /** One naming step keeps the invariant: the next letter along the cycle
      is new to the map and goes in at its wrapped pitch. */
  lemma SortedStep(m: map<char, int>, t: nat, k: nat)
    requires t < 7 && k < 6 && SortedInvariant(m, t, k)
    ensures var c := Wrap7(t + k + 1);
            var placed := if PitchAt(c) < LastValue(m) then PitchAt(c) + 12 else PitchAt(c);
            && LetterAt(c) !in m
            && SortedInvariant(m[LetterAt(c) := placed], t, k + 1)
  {
    var c := Wrap7(t + k + 1);
    assert CycleOffset(c, t) == k + 1;
    assert Slot(m, t, k, c);
    LastValueUnderInvariant(m, t, k);
    GreatestKeyComparison(t, k);
    var placed := if PitchAt(c) < LastValue(m) then PitchAt(c) + 12 else PitchAt(c);
    assert placed == WrappedAt(c, t);
    SlotsAfterStep(m, m[LetterAt(c) := placed], t, k, c);
  }

  /** The slots after putting the letter at offset `k + 1` in at its
      wrapped pitch. */
  lemma SlotsAfterStep(m: map<char, int>, m': map<char, int>, t: nat, k: nat, c: nat)
    requires t < 7 && c < 7 && CycleOffset(c, t) == k + 1 && SortedInvariant(m, t, k)
    requires m' == m[LetterAt(c) := WrappedAt(c, t)]
    ensures SortedInvariant(m', t, k + 1)
  {
    var k1 := k + 1;
    forall i | 0 <= i < 7
      ensures Slot(m', t, k1, i)
    {
      assert Slot(m, t, k, i);
      assert i != c ==> LetterAt(i) != LetterAt(c);
    }
  }

  /** One naming step from the letter after position `c`, when that
      letter is new to the map: it goes in at its pitch, lifted an octave
      when it lies below the greatest key's value. */
  lemma NameStep(at: nat, count: nat, m: map<char, int>, c: nat)
    requires at <= 7 && count > 0 && c < 7 && (if at == 7 then 0 else at) == c && LetterAt(c) !in m
    ensures var placed := if PitchAt(c) < LastValue(m) then PitchAt(c) + 12 else PitchAt(c);
            SortedPitches(NameLetters(at, count), m)
            == SortedPitches(NameLetters(c + 1, count - 1), m[LetterAt(c) := placed])
  {
    var names := NameLetters(at, count);
    assert names[0] == LetterAt(c) && names[1..] == NameLetters(c + 1, count - 1);
  }

  /** What holds after the rest of the walk from the letter after `c`
      holds after the whole walk from `c`. */
  lemma NameStepKeeps(at: nat, count: nat, m: map<char, int>, c: nat, t: nat)
    requires at <= 7 && count > 0 && c < 7 && t < 7 && (if at == 7 then 0 else at) == c && LetterAt(c) !in m
    requires var placed := if PitchAt(c) < LastValue(m) then PitchAt(c) + 12 else PitchAt(c);
             SortedInvariant(SortedPitches(NameLetters(c + 1, count - 1), m[LetterAt(c) := placed]), t, 6)
    ensures SortedInvariant(SortedPitches(NameLetters(at, count), m), t, 6)
  {
    NameStep(at, count, m, c);
  }

  /** The naming loop from step `k` on: `at` is where the letter walk stands,
      one past the letter placed last. */
  lemma {:induction false} SortedPitchesInvariant(at: nat, count: nat, m: map<char, int>, t: nat, k: nat)
    requires t < 7 && k <= 6 && count == 6 - k && at <= 7
    requires (if at == 7 then 0 else at) == Wrap7(t + k + 1)
    requires SortedInvariant(m, t, k)
    ensures SortedInvariant(SortedPitches(NameLetters(at, count), m), t, 6)
    decreases count
  {
    if count > 0 {
      var c := Wrap7(t + k + 1);
      SortedStep(m, t, k);
      var placed := if PitchAt(c) < LastValue(m) then PitchAt(c) + 12 else PitchAt(c);
      SortedPitchesInvariant(c + 1, count - 1, m[LetterAt(c) := placed], t, k + 1);
      NameStepKeeps(at, count, m, c, t);
    } else {
      assert NameLetters(at, count) == [];
      assert SortedPitches(NameLetters(at, count), m) == m;
    }
  }

  /** For every tonic letter the bookkeeping map ends up holding the seven
      letters and nothing else, each at its wrapped pitch: comparing with the
      greatest key, rather than with the letter inserted last, gives the
      plain-letter scale from the tonic upward. */
  lemma SortedPitchesWrap(tonicLetter: char)
    requires IsLetter(tonicLetter)
    ensures LetterKeys(TonicSortedPitches(tonicLetter))
    ensures forall c | IsLetter(c) :: c in TonicSortedPitches(tonicLetter)
    ensures forall c | IsLetter(c) :: TonicSortedPitches(tonicLetter)[c] == WrappedLetterPitch(c, tonicLetter)
  {
    var t := FindLetter(tonicLetter);
    var st := SupertonicLetterIndex(tonicLetter);
    var m0 := map[tonicLetter := LetterPitch(tonicLetter)];
    InitialInvariant(tonicLetter, t);
    SortedPitchesInvariant(st, 6, m0, t, 0);
    SortedInvariantComplete(TonicSortedPitches(tonicLetter), t);
  }

  lemma InitialInvariant(tonicLetter: char, t: nat)
    requires t < 7 && LetterAt(t) == tonicLetter
    ensures SortedInvariant(map[tonicLetter := LetterPitch(tonicLetter)], t, 0)
  {
    forall i | 0 <= i < 7
      ensures Slot(map[tonicLetter := LetterPitch(tonicLetter)], t, 0, i)
    {
      assert LetterAt(i) == tonicLetter <==> i == t;
    }
  }

  lemma SortedInvariantComplete(m: map<char, int>, t: nat)
    requires t < 7 && SortedInvariant(m, t, 6)
    ensures forall c | IsLetter(c) :: c in m && m[c] == WrappedLetterPitch(c, LetterAt(t))
  {
    forall c | IsLetter(c)
      ensures c in m && m[c] == WrappedLetterPitch(c, LetterAt(t))
    {
      var i := FindLetter(c);
      assert Slot(m, t, 6, i);
      assert CycleOffset(i, t) <= 6;
    }
  }

  // ---------------------------------------------------------------------
  // Spelling, chords and the key

  /** Accidentals a note needs when its pitch is `d` semitones above (or,
      when negative, below) its plain letter. */
  function AccidentalsFor(d: int): (r: string)
    ensures |r| == Abs(d)
    ensures forall i | 0 <= i < |r| :: r[i] == (if d > 0 then '#' else 'b')
  {
    if d > 0 then Repeat('#', d) else if d < 0 then Repeat('b', -d) else ""
  }

  /** The accidental loop for one note: the note's distance from the tonic
      letter's entry, against its own letter's distance in the bookkeeping
      map, decides how many sharps or flats to append. */
  function Spell(note: Note, sorted: map<char, int>, tonicLetter: char): (r: Note)
    requires |note.name| > 0
    ensures r.pitch == note.pitch && r.duration == note.duration
    ensures r.name == note.name + AccidentalsFor(note.pitch - Lookup(sorted, note.name[0]))
  {
    var base := Lookup(sorted, tonicLetter);
    var mapPitchDiff := Lookup(sorted, note.name[0]) - base;
    var scalePitchDiff := note.pitch - base;
    var accCount := Abs(scalePitchDiff - mapPitchDiff);
    if scalePitchDiff > mapPitchDiff then note.(name := note.name + Repeat('#', accCount))
    else if scalePitchDiff < mapPitchDiff then note.(name := note.name + Repeat('b', accCount))
    else note
  }

  /** The scale before spelling: the tonic, then six notes named by the
      letter walk and pitched by the interval table (default-constructed
      notes, so duration 0). */
  function UnspelledScale(q: KeyQuality, tonic: Note): (r: seq<Note>)
    requires |tonic.name| > 0
    ensures |r| == 7 && r[0] == tonic
    ensures forall i | 0 <= i < 7 :: |r[i].name| > 0
    ensures forall i | 1 <= i < 7 ::
              && r[i].name == [NameLetters(SupertonicLetterIndex(tonic.name[0]), 6)[i - 1]]
              && r[i].pitch == tonic.pitch + ScaleOffsets(q)[i - 1]
  {
    var offsets := ScaleOffsets(q);
    var letters := NameLetters(SupertonicLetterIndex(tonic.name[0]), 6);
    [tonic] + seq(6, i requires 0 <= i < 6 => Note([letters[i]], tonic.pitch + offsets[i], 0))
  }

  /** The spelled scale: every note, the tonic included, gets its accidentals. */
  function Scale(q: KeyQuality, tonic: Note): (r: seq<Note>)
    requires |tonic.name| > 0 && IsLetter(tonic.name[0])
    ensures |r| == 7
    ensures forall i | 0 <= i < 7 :: |r[i].name| > 0
    ensures r[0].pitch == tonic.pitch
    ensures forall i | 1 <= i < 7 :: r[i].pitch == tonic.pitch + ScaleOffsets(q)[i - 1]
  {
    SpellAll(UnspelledScale(q, tonic), TonicSortedPitches(tonic.name[0]), tonic.name[0])
  }

  function SpellAll(notes: seq<Note>, sorted: map<char, int>, tonicLetter: char): (r: seq<Note>)
    requires forall i | 0 <= i < |notes| :: |notes[i].name| > 0
    ensures |r| == |notes|
    ensures forall i | 0 <= i < |notes| :: r[i] == Spell(notes[i], sorted, tonicLetter) && |r[i].name| > 0
  {
    seq(|notes|, i requires 0 <= i < |notes| => Spell(notes[i], sorted, tonicLetter))
  }

  /** Chord on scale position `i` (degree i + 1): root, third and fifth by
      stacking thirds modulo the scale, with a seventh on degrees 2 and 5. */
  function DiatonicChord(scale: seq<Note>, i: nat): (c: Chord)
    requires |scale| == 7 && i < 7
    ensures c.degree == i + 1 && c.inversion == Root && c.destinations == DestinationDegrees(i + 1)
    ensures |c.notes| == (if i == 1 || i == 4 then 4 else 3)
    ensures c.notes[..3] == [scale[i], scale[(i + 2) % 7], scale[(i + 4) % 7]]
    ensures i == 1 || i == 4 ==> c.notes[3] == scale[(i + 6) % 7]
  {
    var thirdIdx := (i + 2) % 7;
    var fifthIdx := (i + 4) % 7;
    if i == 1 || i == 4 then
      var seventhIdx := (i + 6) % 7;
      Chord(i + 1, [scale[i], scale[thirdIdx], scale[fifthIdx], scale[seventhIdx]], DestinationDegrees(i + 1), Root)
    else
      Chord(i + 1, [scale[i], scale[thirdIdx], scale[fifthIdx]], DestinationDegrees(i + 1), Root)
  }

  /** A name raised a semitone: a trailing flat is dropped, otherwise a
      sharp is appended. */
  function RaisedName(name: string): (r: string)
    requires |name| > 0
    ensures name[|name| - 1] == 'b' ==> r + "b" == name
    ensures name[|name| - 1] != 'b' ==> r == name + "#"
  {
    if name[|name| - 1] == 'b' then name[..|name| - 1] else name + "#"
  }

  /** V/V: scale note 2, scale note 4 raised a semitone, scale note 6. */
  function SecondaryDominant(scale: seq<Note>): (c: Chord)
    requires |scale| == 7 && |scale[3].name| > 0
    ensures c.degree == SecondaryDomDegree && c.inversion == Root
    ensures c.destinations == DestinationDegrees(SecondaryDomDegree)
    ensures c.notes == [scale[1], Note(RaisedName(scale[3].name), scale[3].pitch + 1, 0), scale[5]]
  {
    var raised := Note(RaisedName(scale[3].name), scale[3].pitch + 1, 0);
    Chord(SecondaryDomDegree, [scale[1], raised, scale[5]], DestinationDegrees(SecondaryDomDegree), Root)
  }

  /** The key constructor. The tonic's letter must be one of A..G: the
      source reads it with the letter map's `operator[]`, which would
      otherwise add an entry to that shared table and change every later
      letter walk. */
  function MakeKey(q: KeyQuality, tonic: Note): (k: Key)
    requires |tonic.name| > 0 && IsLetter(tonic.name[0])
    ensures ValidKey(k)
    ensures k.major <==> q == Major
    ensures k.scale[0].pitch == tonic.pitch
    ensures forall i | 1 <= i < 7 :: k.scale[i].pitch == tonic.pitch + ScaleOffsets(q)[i - 1]
    ensures forall i | 0 <= i < 7 :: |k.scale[i].name| > 0
    ensures forall i | 0 <= i < 7 ::
              && k.chords[i].notes[..3] == [k.scale[i], k.scale[(i + 2) % 7], k.scale[(i + 4) % 7]]
              && (i == 1 || i == 4 ==> k.chords[i].notes[3] == k.scale[(i + 6) % 7])
    ensures k.secondaryDominant.notes[0] == k.scale[1] && k.secondaryDominant.notes[2] == k.scale[5]
    ensures k.secondaryDominant.notes[1].pitch == k.scale[3].pitch + 1
    ensures k.secondaryDominant.notes[1].name == RaisedName(k.scale[3].name)
  {
    var scale := Scale(q, tonic);
    Key(q == Major, scale, DiatonicChords(scale), SecondaryDominant(scale))
  }

  function DiatonicChords(scale: seq<Note>): (cs: seq<Chord>)
    requires |scale| == 7
    ensures |cs| == 7 && forall i | 0 <= i < 7 :: cs[i] == DiatonicChord(scale, i)
  {
    seq(7, i requires 0 <= i < 7 => DiatonicChord(scale, i))
  }

  /** How scale note `i` of the key on `tonic` is spelled: the notes take
      the seven letters in turn from the tonic's, wrapping G to A, and each
      carries as many sharps (pitch above) or flats (below) as it is away
      from its letter's pitch on the plain-letter scale above the tonic. The
      tonic keeps its own name in front of its accidentals. */
  predicate SpelledAs(n: Note, tonic: Note, i: nat)
    requires |tonic.name| > 0 && IsLetter(tonic.name[0]) && i < 7
  {
    var letter := LetterAt(Wrap7(FindLetter(tonic.name[0]) + i));
    && |n.name| > 0
    && n.name[0] == letter
    && n.name == (if i == 0 then tonic.name else [letter])
                 + AccidentalsFor(n.pitch - WrappedLetterPitch(letter, tonic.name[0]))
  }

  lemma ScaleNoteSpelling(q: KeyQuality, tonic: Note, i: nat)
    requires |tonic.name| > 0 && IsLetter(tonic.name[0]) && i < 7
    ensures SpelledAs(Scale(q, tonic)[i], tonic, i)
  {
    var tl := tonic.name[0];
    var notes := UnspelledScale(q, tonic);
    UnspelledLetter(q, tonic, i);
    SortedLookup(tl, LetterAt(Wrap7(FindLetter(tl) + i)));
    assert Scale(q, tonic)[i] == Spell(notes[i], TonicSortedPitches(tl), tl);
  }

  /** Before spelling, note `i` is named by the letter `i` steps along from
      the tonic's. */
  lemma UnspelledLetter(q: KeyQuality, tonic: Note, i: nat)
    requires |tonic.name| > 0 && IsLetter(tonic.name[0]) && i < 7
    ensures var letter := LetterAt(Wrap7(FindLetter(tonic.name[0]) + i));
            var n := UnspelledScale(q, tonic)[i];
            && n.name == (if i == 0 then tonic.name else [letter])
            && n.name[0] == letter
  {
    var tl := tonic.name[0];
    var t := FindLetter(tl);
    var notes := UnspelledScale(q, tonic);
    var st := SupertonicLetterIndex(tl);
    if i > 0 {
      NameLetterWrap(st, 6, i - 1);
      assert Wrap7(st + (i - 1)) == Wrap7(t + i);
      assert notes[i].name == [NameLetters(st, 6)[i - 1]];
    }
  }

  lemma SortedLookup(tonicLetter: char, c: char)
    requires IsLetter(tonicLetter) && IsLetter(c)
    ensures Lookup(TonicSortedPitches(tonicLetter), c) == WrappedLetterPitch(c, tonicLetter)
  {
    SortedPitchesWrap(tonicLetter);
  }

  /** The spelling of the whole scale of a constructed key. */
  lemma ScaleSpelling(q: KeyQuality, tonic: Note)
    requires |tonic.name| > 0 && IsLetter(tonic.name[0])
    ensures forall i | 0 <= i < 7 :: SpelledAs(MakeKey(q, tonic).scale[i], tonic, i)
  {
    var k := MakeKey(q, tonic);
    assert k.scale == Scale(q, tonic);
    forall i | 0 <= i < 7
      ensures SpelledAs(k.scale[i], tonic, i)
    {
      ScaleNoteSpelling(q, tonic, i);
    }
  }

  /** The seven scale notes carry seven different letters. */
  lemma ScaleLettersDistinct(q: KeyQuality, tonic: Note)
    requires |tonic.name| > 0 && IsLetter(tonic.name[0])
    ensures var k := MakeKey(q, tonic);
            forall i, j | 0 <= i < j < 7 :: k.scale[i].name[0] != k.scale[j].name[0]
  {
    assert MakeKey(q, tonic).scale == Scale(q, tonic);
    ScaleLettersDiffer(q, tonic);
  }

  /** The seven notes of a scale start with seven different letters. */
  lemma ScaleLettersDiffer(q: KeyQuality, tonic: Note)
    requires |tonic.name| > 0 && IsLetter(tonic.name[0])
    ensures var scale := Scale(q, tonic);
            forall i, j | 0 <= i < j < 7 :: scale[i].name[0] != scale[j].name[0]
  {
    var scale := Scale(q, tonic);
    var t := FindLetter(tonic.name[0]);
    forall i, j | 0 <= i < j < 7
      ensures scale[i].name[0] != scale[j].name[0]
    {
      ScaleLetter(q, tonic, i);
      ScaleLetter(q, tonic, j);
      assert Wrap7(t + i) != Wrap7(t + j);
    }
  }

  /** Scale degree `i` is named with the letter `i` steps along from the
      tonic's. */
  lemma ScaleLetter(q: KeyQuality, tonic: Note, i: nat)
    requires |tonic.name| > 0 && IsLetter(tonic.name[0]) && i < 7
    ensures var n := Scale(q, tonic)[i];
            |n.name| > 0 && n.name[0] == LetterAt(Wrap7(FindLetter(tonic.name[0]) + i))
  {
    ScaleNoteSpelling(q, tonic, i);
  }

  // ---------------------------------------------------------------------
  // Lookups on a key

  /** `key[idx]`: the chord on degree idx + 1. */
  function ChordAt(k: Key, idx: int): (c: Chord)
    requires ValidKey(k) && 0 <= idx < 7
    ensures c.degree == idx + 1 && c.inversion == Root
    ensures c.destinations == DestinationDegrees(idx + 1)
  {
    k.chords[idx]
  }

  /** Whether some note of `chordNotes` has the name `name`, scanning in order. */
  function HasName(chordNotes: seq<Note>, name: string): (b: bool)
    ensures b <==> exists j | 0 <= j < |chordNotes| :: chordNotes[j].name == name
  {
    if |chordNotes| == 0 then false
    else chordNotes[0].name == name || HasName(chordNotes[1..], name)
  }

  /** `isContained`: every given note shares its name with some chord tone. */
  function IsContained(notes: seq<Note>, chord: Chord): bool
  {
    if |notes| == 0 then true
    else HasName(chord.notes, notes[0].name) && IsContained(notes[1..], chord)
  }

  /** The scan means what it says: containment by name, note for note. */
  lemma {:induction false} IsContainedMeans(notes: seq<Note>, chord: Chord)
    ensures IsContained(notes, chord) <==>
            forall i | 0 <= i < |notes| :: exists j | 0 <= j < |chord.notes| :: chord.notes[j].name == notes[i].name
  {
    if |notes| > 0 {
      IsContainedMeans(notes[1..], chord);
      if IsContained(notes, chord) {
        forall i | 0 <= i < |notes|
          ensures HasName(chord.notes, notes[i].name)
        {
          if i > 0 {
            assert notes[i] == notes[1..][i - 1];
          }
        }
      } else if HasName(chord.notes, notes[0].name) {
        var i :| 0 <= i < |notes[1..]| && !HasName(chord.notes, notes[1..][i].name);
        assert notes[1..][i] == notes[i + 1];
      }
    }
  }

  /** The order `possibleChords` tries: degrees 1, 2, 4, 5, 6, 7 (degree 3 is
      skipped), then V/V. */
  function CandidateOrder(k: Key): (r: seq<Chord>)
    requires ValidKey(k)
    ensures |r| == 7
    ensures forall i | 0 <= i < 7 :: DegreeRank(r[i].degree) == i
  {
    [k.chords[0], k.chords[1], k.chords[3], k.chords[4], k.chords[5], k.chords[6], k.secondaryDominant]
  }

  /** A chord's place in `CandidateOrder`; every other degree, 3 included, ranks last. */
  function DegreeRank(degree: int): nat
  {
    if degree == 1 then 0
    else if degree == 2 then 1
    else if degree == 4 then 2
    else if degree == 5 then 3
    else if degree == 6 then 4
    else if degree == 7 then 5
    else if degree == SecondaryDomDegree then 6
    else 7
  }

  predicate RankSorted(cs: seq<Chord>)
  {
    forall i, j | 0 <= i < j < |cs| :: DegreeRank(cs[i].degree) < DegreeRank(cs[j].degree)
  }

  /** The candidates that contain `notes`, in their original order. */
  function FilterContained(cands: seq<Chord>, notes: seq<Note>): (r: seq<Chord>)
    ensures |r| <= |cands|
    ensures forall c :: c in r <==> c in cands && IsContained(notes, c)
    ensures RankSorted(cands) ==> RankSorted(r)
  {
    if |cands| == 0 then []
    else
      var rest := FilterContained(cands[1..], notes);
      if IsContained(notes, cands[0]) then
        KeepHead(cands, rest);
        [cands[0]] + rest
      else
        assert forall c | c in cands :: c == cands[0] || c in cands[1..];
        rest
  }

  /** Putting the first candidate back in front of a filtered rest keeps
      the members and, for a sorted list, the order. */
  lemma KeepHead(cands: seq<Chord>, rest: seq<Chord>)
    requires |cands| > 0 && (forall c | c in rest :: c in cands[1..])
    requires RankSorted(cands[1..]) ==> RankSorted(rest)
    ensures forall c :: c in [cands[0]] + rest <==> c == cands[0] || c in rest
    ensures RankSorted(cands) ==> RankSorted([cands[0]] + rest)
  {
    var r := [cands[0]] + rest;
    if RankSorted(cands) {
      assert RankSorted(cands[1..]);
      forall i, j | 0 <= i < j < |r|
        ensures DegreeRank(r[i].degree) < DegreeRank(r[j].degree)
      {
        if i == 0 {
          assert r[j] in rest;
          var m :| 0 <= m < |cands[1..]| && cands[1..][m] == r[j];
          assert cands[m + 1] == r[j];
        } else {
          assert r[i] == rest[i - 1] && r[j] == rest[j - 1];
        }
      }
    }
  }

  /** `possibleChords`: the key's chords (degree 3 excluded) and V/V that
      contain every given note by name, in degree order 1, 2, 4, 5, 6, 7, V/V. */
  function PossibleChords(k: Key, notes: seq<Note>): (r: seq<Chord>)
    requires ValidKey(k)
    ensures |r| <= 7
    ensures forall c :: c in r <==> c in CandidateOrder(k) && IsContained(notes, c)
    ensures forall i | 0 <= i < |r| :: r[i].degree != 3 && DegreeRank(r[i].degree) < 7
    ensures RankSorted(r)
  {
    var cands := CandidateOrder(k);
    var r := FilterContained(cands, notes);
    assert RankSorted(cands);
    assert forall i | 0 <= i < |r| :: r[i] in cands;
    r
  }

  /** `getInversion`: the position among `notes` of the first note named like
      `bass`, or root position when there is none. */
  method GetInversion(notes: seq<Note>, bass: Note) returns (r: int)
    ensures 0 <= r && (r < |notes| || r == Root)
    ensures (exists i | 0 <= i < |notes| :: notes[i].name == bass.name) ==>
              && r < |notes|
              && notes[r].name == bass.name
              && forall j | 0 <= j < r :: notes[j].name != bass.name
    ensures (forall i | 0 <= i < |notes| :: notes[i].name != bass.name) ==> r == Root
  {
    var i := 0;
    while i < |notes|
      invariant 0 <= i <= |notes|
      invariant forall j | 0 <= j < i :: notes[j].name != bass.name
    {
      if notes[i].name == bass.name {
        return i;
      }
      i := i + 1;
    }
    return Root;
  }

  /** The progression graph never leads to degree 3 or back to the same
      degree, and every chord it leads to is one the candidates cover. */
  lemma ProgressionGraph(k: Key)
    requires ValidKey(k)
    ensures forall i, d | 0 <= i < 7 && d in k.chords[i].destinations ::
              d != 3 && d != k.chords[i].degree && DegreeRank(d) < 7
    ensures forall d | d in k.secondaryDominant.destinations :: d != SecondaryDomDegree && DegreeRank(d) < 7
    ensures k.chords[2].destinations == []
  {
  }
}
