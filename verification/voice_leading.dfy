/** The voice-leading rules of the search (bassline_maker.cpp): which bass
    pitch, if any, a destination chord may take after the current one,
    which inversions a destination may be in, and the children a search
    node has. */
module VoiceLeading {
  import opened Outcomes
  import opened Types
  import opened Keys

  /** A search node: a chord, in the inversion it is voiced in, placed under
      soprano note `noteIdx`. */
  datatype Node = Node(chord: Chord, noteIdx: nat)

  // ---------------------------------------------------------------------
  // legalBassPitch

  /** The per-octave checks of the pitch loop: a leap of at most a fifth,
      no tritone, the leading tone rising a semitone when it must resolve,
      a bass falling a semitone under a chord in third inversion, and no
      rising fifth in both outer voices. */
  predicate PlacementOk(p: int, prev: int, sopranoInterval: int, leadingNeed: bool, cursorInversion: int)
  {
    var leap := p - prev;
    && Abs(leap) <= LargestBassLeap
    && Abs(leap) != 6
    && (leadingNeed ==> leap == 1)
    && (cursorInversion == Third ==> leap == -1)
    && !(leap == sopranoInterval && sopranoInterval == 7)
  }

  /** `q` is `p` raised by a whole, positive number of octaves. */
  predicate OctaveAbove(q: int, p: int)
  {
    q > p && SameClass(q, p)
  }

  /** The candidate pitches the loop tries: octaves above `p` inside the bass range. */
  predicate InRangeOctave(q: int, p: int)
  {
    OctaveAbove(q, p) && LowestBassPitch <= q <= HighestBassPitch
  }

  /** The pitch loop from candidate `p` upward: the first in-range candidate
      that passes the checks, or none once the range is left. */
  function FirstPlacement(p: int, prev: int, sopranoInterval: int, leadingNeed: bool, cursorInversion: int): (r: Option<int>)
    ensures r.Some? ==>
              && LowestBassPitch <= r.value <= HighestBassPitch
              && r.value >= p
              && PlacementOk(r.value, prev, sopranoInterval, leadingNeed, cursorInversion)
    decreases if p > HighestBassPitch then 0 else HighestBassPitch - p + 1
  {
    if p > HighestBassPitch then None
    else if p < LowestBassPitch then FirstPlacement(p + 12, prev, sopranoInterval, leadingNeed, cursorInversion)
    else if PlacementOk(p, prev, sopranoInterval, leadingNeed, cursorInversion) then Some(p)
    else FirstPlacement(p + 12, prev, sopranoInterval, leadingNeed, cursorInversion)
  }

  /** The pitch loop returns the lowest candidate at or above `p`, in whole
      octaves, that lies in the range and passes the checks; it returns none
      exactly when no such candidate exists. */
  lemma {:induction false} FirstPlacementLowest(p: int, prev: int, sopranoInterval: int, leadingNeed: bool, cursorInversion: int)
    ensures var r := FirstPlacement(p, prev, sopranoInterval, leadingNeed, cursorInversion);
            && (r.Some? ==>
                  && SameClass(r.value, p)
                  && forall q | p <= q < r.value && SameClass(q, p) && q >= LowestBassPitch ::
                       !PlacementOk(q, prev, sopranoInterval, leadingNeed, cursorInversion))
            && (r.None? ==>
                  forall q | p <= q <= HighestBassPitch && SameClass(q, p) && q >= LowestBassPitch ::
                    !PlacementOk(q, prev, sopranoInterval, leadingNeed, cursorInversion))
    decreases if p > HighestBassPitch then 0 else HighestBassPitch - p + 1
  {
    var r := FirstPlacement(p, prev, sopranoInterval, leadingNeed, cursorInversion);
    if p <= HighestBassPitch {
      if p < LowestBassPitch || !PlacementOk(p, prev, sopranoInterval, leadingNeed, cursorInversion) {
        FirstPlacementLowest(p + 12, prev, sopranoInterval, leadingNeed, cursorInversion);
        if r.Some? {
          OctaveStep(r.value, p);
          forall q | p <= q < r.value && SameClass(q, p) && q >= LowestBassPitch
            ensures !PlacementOk(q, prev, sopranoInterval, leadingNeed, cursorInversion)
          {
            OctaveStep(q, p);
          }
        } else {
          forall q | p <= q <= HighestBassPitch && SameClass(q, p) && q >= LowestBassPitch
            ensures !PlacementOk(q, prev, sopranoInterval, leadingNeed, cursorInversion)
          {
            OctaveStep(q, p);
          }
        }
      } else {
        assert SameClass(p, p);
      }
    }
  }

  /** `q` and `p` are a whole number of octaves apart. */
  predicate SameClass(q: int, p: int)
  {
    (q - p) % 12 == 0
  }

  lemma OctaveStep(q: int, p: int)
    ensures SameClass(q, p + 12) == SameClass(q, p)
    ensures p < q < p + 12 ==> !SameClass(q, p)
  {
    assert q - p == (q - (p + 12)) + 12;
  }

  /** The tone a chord puts in the bass. */
  function Voiced(c: Chord): Note
    requires 0 <= c.inversion < |c.notes|
  {
    c.notes[c.inversion]
  }

  /** The soprano and bass would sound the same name on both chords. */
  predicate Collides(soprano: seq<Note>, idx: nat, prevBass: Note, dest: Chord)
    requires idx + 1 < |soprano| && 0 <= dest.inversion < |dest.notes|
  {
    Voiced(dest).name == soprano[idx + 1].name && prevBass.name == soprano[idx].name
  }

  /** The previous bass note is the leading tone (the root of chord 7). */
  predicate LeadingNeed(key: Key, prevBass: Note)
    requires ValidKey(key)
  {
    prevBass.name == key.chords[6].notes[0].name
  }

  /** `legalBassPitch`, called on the cursor with the previous bass note (the
      top of the bass stack) and a destination chord. */
  function LegalBassPitch(key: Key, soprano: seq<Note>, cursor: Node, prevBass: Note, dest: Chord): (r: Option<int>)
    requires ValidKey(key)
    requires cursor.noteIdx + 1 < |soprano|
    requires 0 <= dest.inversion < |dest.notes|
  {
    var idx := cursor.noteIdx;
    var bass := Voiced(dest);
    if Collides(soprano, idx, prevBass, dest) then None
    else
      var tonic := key.chords[0].notes[0];
      var need := LeadingNeed(key, prevBass);
      if need && bass.name != tonic.name then None
      else
        var sopranoInterval := soprano[idx + 1].pitch - soprano[idx].pitch;
        FirstPlacement(bass.pitch + 12, prevBass.pitch, sopranoInterval, need, cursor.chord.inversion)
  }

  /** What a returned pitch satisfies, and when there is none. */
  lemma LegalBassPitchMeaning(key: Key, soprano: seq<Note>, cursor: Node, prevBass: Note, dest: Chord)
    requires ValidKey(key)
    requires cursor.noteIdx + 1 < |soprano|
    requires 0 <= dest.inversion < |dest.notes|
    ensures var r := LegalBassPitch(key, soprano, cursor, prevBass, dest);
            var idx := cursor.noteIdx;
            var need := LeadingNeed(key, prevBass);
            var sopranoInterval := soprano[idx + 1].pitch - soprano[idx].pitch;
            && (r.Some? ==>
                  && LowestBassPitch <= r.value <= HighestBassPitch
                  && OctaveAbove(r.value, Voiced(dest).pitch)
                  && Abs(r.value - prevBass.pitch) <= LargestBassLeap
                  && Abs(r.value - prevBass.pitch) != 6
                  && (need ==> Voiced(dest).name == key.chords[0].notes[0].name && r.value == prevBass.pitch + 1)
                  && (cursor.chord.inversion == Third ==> r.value == prevBass.pitch - 1)
                  && !(r.value - prevBass.pitch == 7 && sopranoInterval == 7)
                  && !Collides(soprano, idx, prevBass, dest)
                  && forall q | InRangeOctave(q, Voiced(dest).pitch) && q < r.value ::
                       !PlacementOk(q, prevBass.pitch, sopranoInterval, need, cursor.chord.inversion))
            && (r.None? <==>
                  || Collides(soprano, idx, prevBass, dest)
                  || (need && Voiced(dest).name != key.chords[0].notes[0].name)
                  || forall q | InRangeOctave(q, Voiced(dest).pitch) ::
                       !PlacementOk(q, prevBass.pitch, sopranoInterval, need, cursor.chord.inversion))
  {
    var idx := cursor.noteIdx;
    var need := LeadingNeed(key, prevBass);
    var sopranoInterval := soprano[idx + 1].pitch - soprano[idx].pitch;
    if !Collides(soprano, idx, prevBass, dest) && !(need && Voiced(dest).name != key.chords[0].notes[0].name) {
      PlacementMeaning(Voiced(dest).pitch, prevBass.pitch, sopranoInterval, need, cursor.chord.inversion);
      assert LegalBassPitch(key, soprano, cursor, prevBass, dest)
             == FirstPlacement(Voiced(dest).pitch + 12, prevBass.pitch, sopranoInterval, need, cursor.chord.inversion);
    }
  }

  /** The pitch loop started an octave above the chord tone `b`: a found
      pitch is the lowest in-range octave of `b` that passes the checks,
      and there is none exactly when no in-range octave of `b` passes. */
  lemma PlacementMeaning(b: int, prev: int, sopranoInterval: int, need: bool, cursorInversion: int)
    ensures var r := FirstPlacement(b + 12, prev, sopranoInterval, need, cursorInversion);
            && (r.Some? ==>
                  && LowestBassPitch <= r.value <= HighestBassPitch
                  && OctaveAbove(r.value, b)
                  && PlacementOk(r.value, prev, sopranoInterval, need, cursorInversion)
                  && forall q | InRangeOctave(q, b) && q < r.value ::
                       !PlacementOk(q, prev, sopranoInterval, need, cursorInversion))
            && (r.None? <==> forall q | InRangeOctave(q, b) :: !PlacementOk(q, prev, sopranoInterval, need, cursorInversion))
  {
    var r := FirstPlacement(b + 12, prev, sopranoInterval, need, cursorInversion);
    FirstPlacementLowest(b + 12, prev, sopranoInterval, need, cursorInversion);
    forall q | InRangeOctave(q, b)
      ensures b + 12 <= q && SameClass(q, b + 12)
    {
      OctaveStep(q, b);
    }
    if r.Some? {
      OctaveStep(r.value, b);
      assert InRangeOctave(r.value, b);
    }
  }

  // ---------------------------------------------------------------------
  // validInversion

  /** `validInversion` for `node` entered from `parent`, as written: the
      first matching rule decides. */
  predicate ValidInversion(sopranoSize: nat, node: Node, parent: Node)
  {
    var inv := node.chord.inversion;
    var deg := node.chord.degree;
    var pdeg := parent.chord.degree;
    if node.noteIdx == sopranoSize - 1 && inv != Root then false
    else if pdeg == 6 && inv != Root then false
    else if pdeg == SecondaryDomDegree && inv == Third then false
    else if deg == SecondaryDomDegree then inv != Third
    else if deg == 1 then inv != Second && inv != Third
    else if deg == 4 then inv != Third
    else if deg == 6 then
      if inv == First then pdeg == SecondaryDomDegree
      else inv == Root && pdeg != SecondaryDomDegree
    else if deg == 7 then deg == First
    else true
  }

  /** Inversions each degree may take when neither the position nor the
      previous chord constrains it: an independent statement of the table. */
  function AllowedInversions(degree: int, parentIsSecondaryDominant: bool): set<int>
  {
    if degree == SecondaryDomDegree then {0, 1, 2}
    else if degree == 1 then {0, 1}
    else if degree == 4 then {0, 1, 2}
    else if degree == 6 then (if parentIsSecondaryDominant then {1} else {0})
    else if degree == 7 then {}
    else {0, 1, 2, 3}
  }

  /** The rule table, for the inversions the search generates: the last
      chord and any chord after a vi are in root position, nothing after a
      V/V is in third inversion, and otherwise the degree's own rule holds. */
  lemma ValidInversionTable(sopranoSize: nat, node: Node, parent: Node)
    requires 0 <= node.chord.inversion <= 3
    ensures var inv := node.chord.inversion;
            var pdeg := parent.chord.degree;
            ValidInversion(sopranoSize, node, parent) <==>
              && (node.noteIdx == sopranoSize - 1 ==> inv == Root)
              && (pdeg == 6 ==> inv == Root)
              && (pdeg == SecondaryDomDegree ==> inv != Third)
              && inv in AllowedInversions(node.chord.degree, pdeg == SecondaryDomDegree)
  {
  }

  /** The degree-7 rule compares the degree, not the inversion, with FIRST,
      so no chord on degree 7 is ever accepted. */
  lemma SeventhDegreeNeverAccepted(sopranoSize: nat, node: Node, parent: Node)
    requires node.chord.degree == 7
    ensures !ValidInversion(sopranoSize, node, parent)
  {
  }

  /** An accepted chord of the right shape voices a tone it has: only the
      seventh chords (degrees 2 and 5, four tones) may be in third inversion. */
  lemma AcceptedInversionInBounds(sopranoSize: nat, node: Node, parent: Node)
    requires 0 <= node.chord.inversion <= 3
    requires DegreeRank(node.chord.degree) < 7
    requires |node.chord.notes| == (if node.chord.degree == 2 || node.chord.degree == 5 then 4 else 3)
    requires ValidInversion(sopranoSize, node, parent)
    ensures node.chord.inversion < |node.chord.notes|
  {
    ValidInversionTable(sopranoSize, node, parent);
  }

  // ---------------------------------------------------------------------
  // generateDestinations

  /** A chord holds the next soprano note's name and the cursor's chord may move to it. */
  predicate Fits(soprano: seq<Note>, cursor: Node, c: Chord)
    requires cursor.noteIdx + 1 < |soprano|
  {
    IsContained([soprano[cursor.noteIdx + 1]], c) && c.degree in cursor.chord.destinations
  }

  /** The key's candidates for the next soprano note that the cursor's chord
      may move to, in candidate order. */
  function Moves(key: Key, soprano: seq<Note>, cursor: Node): (r: seq<Chord>)
    requires ValidKey(key) && cursor.noteIdx + 1 < |soprano|
    ensures forall c :: c in r <==> c in CandidateOrder(key) && Fits(soprano, cursor, c)
    ensures RankSorted(r)
  {
    FilterDegrees(PossibleChords(key, [soprano[cursor.noteIdx + 1]]), cursor.chord.destinations)
  }

  /** The chords whose degree is among `degrees`, in order. */
  function FilterDegrees(cs: seq<Chord>, degrees: seq<int>): (r: seq<Chord>)
    ensures forall c :: c in r <==> c in cs && c.degree in degrees
    ensures RankSorted(cs) ==> RankSorted(r)
  {
    if |cs| == 0 then []
    else
      var rest := FilterDegrees(cs[1..], degrees);
      assert forall c | c in cs[1..] :: c in cs;
      if cs[0].degree in degrees then
        assert RankSorted(cs) ==> forall c | c in rest :: DegreeRank(cs[0].degree) < DegreeRank(c.degree);
        assert forall c :: c in [cs[0]] + rest <==> c == cs[0] || c in rest;
        [cs[0]] + rest
      else rest
  }

  /** Each chord four times, in inversions 0 to 3, under soprano note `idx`. */
  function WithInversions(cs: seq<Chord>, idx: nat): (r: seq<Node>)
    ensures |r| == 4 * |cs|
    ensures forall i | 0 <= i < |r| :: r[i] == Node(cs[i / 4].(inversion := i % 4), idx)
  {
    if |cs| == 0 then []
    else
      var rest := WithInversions(cs[1..], idx);
      var head := seq(4, j requires 0 <= j < 4 => Node(cs[0].(inversion := j), idx));
      assert forall i | 4 <= i < 4 * |cs| :: (i - 4) / 4 == i / 4 - 1 && (i - 4) % 4 == i % 4;
      head + rest
  }

  /** `generateDestinations`: the children of the cursor. */
  function GenerateDestinations(key: Key, soprano: seq<Note>, cursor: Node): (r: seq<Node>)
    requires ValidKey(key) && cursor.noteIdx + 1 < |soprano|
    ensures |r| == 4 * |Moves(key, soprano, cursor)|
    ensures forall i | 0 <= i < |r| ::
              r[i] == Node(Moves(key, soprano, cursor)[i / 4].(inversion := i % 4), cursor.noteIdx + 1)
  {
    WithInversions(Moves(key, soprano, cursor), cursor.noteIdx + 1)
  }

  /** Every child sits under the next soprano note and comes from a key
      chord that holds that note's name and that the cursor's chord may move
      to, in one of the four inversions. */
  lemma DestinationsSound(key: Key, soprano: seq<Note>, cursor: Node)
    requires ValidKey(key) && cursor.noteIdx + 1 < |soprano|
    ensures forall n | n in GenerateDestinations(key, soprano, cursor) ::
              && n.noteIdx == cursor.noteIdx + 1
              && 0 <= n.chord.inversion <= 3
              && n.chord.(inversion := Root) in CandidateOrder(key)
              && Fits(soprano, cursor, n.chord)
  {
    var r := GenerateDestinations(key, soprano, cursor);
    var moves := Moves(key, soprano, cursor);
    CandidatesInRoot(key);
    forall n | n in r
      ensures n.noteIdx == cursor.noteIdx + 1
      ensures 0 <= n.chord.inversion <= 3
      ensures n.chord.(inversion := Root) in CandidateOrder(key)
      ensures Fits(soprano, cursor, n.chord)
    {
      var i :| 0 <= i < |r| && r[i] == n;
      var c := moves[i / 4];
      assert c in moves;
      assert n.chord == c.(inversion := i % 4);
      assert n.chord.(inversion := Root) == c;
      ContainedIgnoresInversion([soprano[cursor.noteIdx + 1]], c, i % 4);
    }
  }

  /** Every key chord that holds the next soprano note's name and that the
      cursor's chord may move to is a child in each of the four inversions. */
  lemma DestinationsComplete(key: Key, soprano: seq<Note>, cursor: Node, c: Chord, inv: int)
    requires ValidKey(key) && cursor.noteIdx + 1 < |soprano|
    requires c in CandidateOrder(key) && 0 <= inv <= 3
    requires Fits(soprano, cursor, c)
    ensures Node(c.(inversion := inv), cursor.noteIdx + 1) in GenerateDestinations(key, soprano, cursor)
  {
    var moves := Moves(key, soprano, cursor);
    assert c in moves;
    var m :| 0 <= m < |moves| && moves[m] == c;
    DestinationAt(key, soprano, cursor, m, inv);
  }

  /** Every move appears among the children in every inversion. */
  lemma DestinationAt(key: Key, soprano: seq<Note>, cursor: Node, m: nat, inv: int)
    requires ValidKey(key) && cursor.noteIdx + 1 < |soprano|
    requires m < |Moves(key, soprano, cursor)| && 0 <= inv < 4
    ensures Node(Moves(key, soprano, cursor)[m].(inversion := inv), cursor.noteIdx + 1)
            in GenerateDestinations(key, soprano, cursor)
  {
    var r := GenerateDestinations(key, soprano, cursor);
    var i := QuarterIndex(m, inv);
    assert i < |r|;
    assert r[i] == Node(Moves(key, soprano, cursor)[m].(inversion := inv), cursor.noteIdx + 1);
  }

  /** Entry `4 * m + inv` of a sequence of four inversions per chord is
      chord `m` in inversion `inv`. */
  lemma QuarterIndex(m: nat, inv: int) returns (i: nat)
    requires 0 <= inv < 4
    ensures i == 4 * m + inv && i / 4 == m && i % 4 == inv
  {
    i := 4 * m + inv;
  }

  lemma CandidatesInRoot(key: Key)
    requires ValidKey(key)
    ensures forall c | c in CandidateOrder(key) :: c.inversion == Root
  {
  }

  lemma ContainedIgnoresInversion(notes: seq<Note>, c: Chord, inv: int)
    ensures IsContained(notes, c.(inversion := inv)) == IsContained(notes, c)
  {
    assert c.(inversion := inv).notes == c.notes;
    IsContainedMeans(notes, c);
    IsContainedMeans(notes, c.(inversion := inv));
  }

  /** A child the rule table accepts voices a tone its chord has. */
  lemma ChildVoicingInBounds(key: Key, soprano: seq<Note>, cursor: Node, n: Node)
    requires ValidKey(key) && cursor.noteIdx + 1 < |soprano|
    requires n in GenerateDestinations(key, soprano, cursor)
    requires ValidInversion(|soprano|, n, cursor)
    ensures 0 <= n.chord.inversion < |n.chord.notes|
  {
    DestinationsSound(key, soprano, cursor);
    var c := n.chord.(inversion := Root);
    assert c in CandidateOrder(key);
    assert n.chord.notes == c.notes && n.chord.degree == c.degree;
    AcceptedInversionInBounds(|soprano|, n, cursor);
  }
}
