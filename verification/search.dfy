/** The chord tree of bassline_maker.cpp: the backtracking walk instantiated
    with the voice-leading rules (`ChordTree`'s constructor and `getPath`),
    the bass lines those rules allow, and `writeBassLine`, which aligns the
    given bass line with the soprano line and seeds the walk. */
module Search {
  import opened Outcomes
  import opened Types
  import opened Keys
  import opened VoiceLeading
  import BT = Backtracking

  /** What `ChordTree`'s constructor fixes for a whole walk: the key, the
      soprano line, the soprano note the given bass line ends under (the
      sentinel's), and `chordCountGoal`, the bass-stack size that ends the
      walk (the seed note counts). */
  datatype Tree = Tree(key: Key, soprano: seq<Note>, start: nat, goal: nat)

  /** A tree whose walk has at least one soprano note to harmonise and whose
      goal is reached exactly at the last soprano note. */
  predicate ValidTree(t: Tree)
  {
    && ValidKey(t.key)
    && t.start + 1 < |t.soprano|
    && t.goal == |t.soprano| - t.start
  }

  /** A cursor of the walk, with the size of the bass stack while it is the
      cursor: one entry for the seed and one per soprano note after it. */
  predicate OnPath(t: Tree, node: Node, count: nat)
  {
    && t.start <= node.noteIdx
    && node.noteIdx + 1 < |t.soprano|
    && count == node.noteIdx - t.start + 1
  }

  /** The bass note `explore` pushes for a child voiced at pitch `p`: the
      name of the chord tone in the bass and the soprano note's duration. */
  function BassNote(t: Tree, dest: Node, p: int): (n: Note)
    requires dest.noteIdx < |t.soprano| && 0 <= dest.chord.inversion < |dest.chord.notes|
    ensures n.name == Voiced(dest.chord).name && n.pitch == p
    ensures n.duration == t.soprano[dest.noteIdx].duration
  {
    Note(Voiced(dest.chord).name, p, t.soprano[dest.noteIdx].duration)
  }

  /** One drawn child (bassline_maker.cpp, `explore`): `validInversion`, then
      `legalBassPitch`; the bass note to push, or nothing when the child is
      marked explored. */
  function TryChild(t: Tree, node: Node, prevBass: Note, dest: Node): (r: Option<Note>)
    requires ValidTree(t) && node.noteIdx + 1 < |t.soprano|
    requires dest in GenerateDestinations(t.key, t.soprano, node)
    ensures dest.noteIdx == node.noteIdx + 1
    ensures r.Some? ==> r.value.duration == t.soprano[dest.noteIdx].duration
  {
    DestinationsSound(t.key, t.soprano, node);
    if !ValidInversion(|t.soprano|, dest, node) then None
    else
      ChildVoicingInBounds(t.key, t.soprano, node, dest);
      match LegalBassPitch(t.key, t.soprano, node, prevBass, dest.chord)
      case None => None
      case Some(p) => Some(BassNote(t, dest, p))
  }

  /** The children of a cursor; the walk never asks for those of the last
      soprano note. */
  function Children(t: Tree, node: Node): seq<Node>
  {
    if ValidTree(t) && node.noteIdx + 1 < |t.soprano| then GenerateDestinations(t.key, t.soprano, node) else []
  }

  /** The bass note pushed for a drawn child, if any. */
  function Take(t: Tree, node: Node, prevBass: Note, dest: Node): Option<Note>
  {
    if ValidTree(t) && node.noteIdx + 1 < |t.soprano| && dest in GenerateDestinations(t.key, t.soprano, node)
    then TryChild(t, node, prevBass, dest)
    else None
  }

  /** The voice-leading rules as the rules of the walk. */
  function RulesOf(t: Tree): (r: BT.Rules<Node, Note>)
    ensures r.goal == t.goal
    ensures forall n :: r.children(n) == Children(t, n)
    ensures forall n, b, d :: r.take(n, b, d) == Take(t, n, b, d)
  {
    BT.Rules((n: Node) => Children(t, n), (n: Node, b: Note, d: Node) => Take(t, n, b, d), t.goal)
  }

  // ---------------------------------------------------------------------
  // The bass lines the rules allow

  /** One move: `to` is a child of `from` that the inversion rules accept,
      and `bass` is the tone `to` puts in the bass, at the pitch
      `legalBassPitch` chooses after `prevBass`, lasting as long as the
      soprano note above it. */
  predicate Step(t: Tree, from: Node, prevBass: Note, to: Node, bass: Note)
    requires ValidTree(t) && from.noteIdx + 1 < |t.soprano|
  {
    && to in GenerateDestinations(t.key, t.soprano, from)
    && ValidInversion(|t.soprano|, to, from)
    && 0 <= to.chord.inversion < |to.chord.notes|
    && LegalBassPitch(t.key, t.soprano, from, prevBass, to.chord) == Some(bass.pitch)
    && bass.name == Voiced(to.chord).name
    && to.noteIdx < |t.soprano|
    && bass.duration == t.soprano[to.noteIdx].duration
  }

  /** `path` and `bass` carry the line on from `node` (with `prevBass` on
      top of the stack) to the last soprano note: one note per soprano note
      left, each a legal move from the one before it. */
  predicate LegalLine(t: Tree, node: Node, prevBass: Note, path: seq<Node>, bass: seq<Note>)
    requires ValidTree(t)
  {
    && |path| == |bass| == |t.soprano| - 1 - node.noteIdx
    && forall k | 0 <= k < |path| :: MoveAt(t, node, prevBass, path, bass, k)
  }

  /** Move `k` of a line is legal, from the node and note before it. */
  predicate MoveAt(t: Tree, node: Node, prevBass: Note, path: seq<Node>, bass: seq<Note>, k: nat)
    requires ValidTree(t) && k < |path| <= |bass|
  {
    && BT.Before(node, path, k).noteIdx + 1 < |t.soprano|
    && Step(t, BT.Before(node, path, k), BT.Before(prevBass, bass, k), path[k], bass[k])
  }

  /** A child and note are taken by the walk exactly when they make a
      legal move. */
  lemma TakeIsStep(t: Tree, node: Node, prevBass: Note, dest: Node, b: Note)
    requires ValidTree(t) && node.noteIdx + 1 < |t.soprano|
    ensures dest in Children(t, node) && Take(t, node, prevBass, dest) == Some(b)
            <==> Step(t, node, prevBass, dest, b)
  {
    if dest in GenerateDestinations(t.key, t.soprano, node) {
      DestinationsSound(t.key, t.soprano, node);
      if ValidInversion(|t.soprano|, dest, node) {
        ChildVoicingInBounds(t.key, t.soprano, node, dest);
      }
    }
  }

  /** Note `k` of a legal line sounds right under soprano note
      `node.noteIdx + 1 + k`, moves right from the note and chord before
      it, and its chord is one that chord leads to. */
  lemma LineNoteSounds(t: Tree, node: Node, prevBass: Note, path: seq<Node>, bass: seq<Note>, k: nat)
    requires ValidTree(t) && LegalLine(t, node, prevBass, path, bass) && k < |path|
    ensures node.noteIdx + 1 + k < |t.soprano|
    ensures SoundsRight(t, Node(path[k].chord, node.noteIdx + 1 + k), bass[k])
    ensures MovesRight(t.key, t.soprano[node.noteIdx + k], t.soprano[node.noteIdx + k + 1],
                       BT.Before(node.chord, ChordsOf(path), k), BT.Before(prevBass, bass, k), bass[k])
    ensures path[k].chord.degree in BT.Before(node.chord, ChordsOf(path), k).destinations
  {
    MoveFacts(t, node, prevBass, path, bass, k);
    LineNoteAt(t, node, prevBass, path, bass, k);
    assert path[k] == Node(path[k].chord, node.noteIdx + 1 + k);
    BeforeOnLine(t, node, prevBass, path, bass, k);
    MovesFrom(t, BT.Before(node, path, k), BT.Before(node.chord, ChordsOf(path), k), node.noteIdx + k,
              BT.Before(prevBass, bass, k), bass[k]);
  }

  /** `StepFacts` for move `k` of a legal line. */
  lemma MoveFacts(t: Tree, node: Node, prevBass: Note, path: seq<Node>, bass: seq<Note>, k: nat)
    requires ValidTree(t) && LegalLine(t, node, prevBass, path, bass) && k < |path|
    ensures BT.Before(node, path, k).noteIdx + 1 < |t.soprano|
    ensures path[k].noteIdx < |t.soprano| && SoundsRight(t, path[k], bass[k])
    ensures MovesRight(t.key, t.soprano[BT.Before(node, path, k).noteIdx], t.soprano[BT.Before(node, path, k).noteIdx + 1],
                       BT.Before(node, path, k).chord, BT.Before(prevBass, bass, k), bass[k])
    ensures path[k].chord.degree in BT.Before(node, path, k).chord.destinations
  {
    assert MoveAt(t, node, prevBass, path, bass, k);
    var from, pb := BT.Before(node, path, k), BT.Before(prevBass, bass, k);
    if k == 0 {
      assert from == node && pb == prevBass;
    } else {
      assert from == path[k - 1] && pb == bass[k - 1];
    }
    StepFacts(t, from, pb, path[k], bass[k]);
  }

  /** `MovesRight` after a node, restated with the node's chord and
      soprano index. */
  lemma MovesFrom(t: Tree, from: Node, prevChord: Chord, idx: nat, prevBass: Note, b: Note)
    requires ValidKey(t.key) && from == Node(prevChord, idx) && idx + 1 < |t.soprano|
    requires MovesRight(t.key, t.soprano[from.noteIdx], t.soprano[from.noteIdx + 1], from.chord, prevBass, b)
    ensures MovesRight(t.key, t.soprano[idx], t.soprano[idx + 1], prevChord, prevBass, b)
  {
  }

  /** The node before move `k` of a legal line sits under soprano note
      `node.noteIdx + k` and holds the chord before chord `k`. */
  lemma BeforeOnLine(t: Tree, node: Node, prevBass: Note, path: seq<Node>, bass: seq<Note>, k: nat)
    requires ValidTree(t) && LegalLine(t, node, prevBass, path, bass) && k < |path|
    ensures BT.Before(node, path, k) == Node(BT.Before(node.chord, ChordsOf(path), k), node.noteIdx + k)
  {
    if k > 0 {
      LineNoteAt(t, node, prevBass, path, bass, k - 1);
    }
  }

  /** Every note of a legal line sounds right and moves right, and every
      chord is one the chord before it leads to. */
  lemma LineSounds(t: Tree, node: Node, prevBass: Note, path: seq<Node>, bass: seq<Note>)
    requires ValidTree(t) && LegalLine(t, node, prevBass, path, bass)
    ensures LineSoundsRight(t, node.noteIdx, node.chord, prevBass, ChordsOf(path), bass)
  {
    forall k | 0 <= k < |bass|
      ensures SoundsRight(t, Node(ChordsOf(path)[k], node.noteIdx + 1 + k), bass[k])
      ensures MovesRight(t.key, t.soprano[node.noteIdx + k], t.soprano[node.noteIdx + k + 1],
                         BT.Before(node.chord, ChordsOf(path), k), BT.Before(prevBass, bass, k), bass[k])
      ensures ChordsOf(path)[k].degree in BT.Before(node.chord, ChordsOf(path), k).destinations
    {
      LineNoteSounds(t, node, prevBass, path, bass, k);
    }
  }

  /** Every path of the walk is a legal line. */
  lemma PathIsLegal(t: Tree, node: Node, count: nat, prevBass: Note, path: seq<Node>, bass: seq<Note>)
    requires ValidTree(t) && OnPath(t, node, count)
    requires BT.IsPath(RulesOf(t), node, count, prevBass, path, bass)
    ensures LegalLine(t, node, prevBass, path, bass)
  {
    BT.PathLength(RulesOf(t), node, count, prevBass, path, bass);
    forall k | 0 <= k < |path|
      ensures MoveAt(t, node, prevBass, path, bass, k)
    {
      PathMoveIsLegal(t, node, count, prevBass, path, bass, k);
    }
  }

  /** Move `k` of a path of the walk is a legal move. */
  lemma PathMoveIsLegal(t: Tree, node: Node, count: nat, prevBass: Note, path: seq<Node>, bass: seq<Note>, k: nat)
    requires ValidTree(t) && BT.IsPath(RulesOf(t), node, count, prevBass, path, bass) && k < |path|
    ensures k < |bass| && MoveAt(t, node, prevBass, path, bass, k)
  {
    var r := RulesOf(t);
    var from := BT.Before(node, path, k);
    BT.PathLength(r, node, count, prevBass, path, bass);
    BT.PathMoveAt(r, node, count, prevBass, path, bass, k);
    assert path[k] in Children(t, from);
    TakeIsStep(t, from, BT.Before(prevBass, bass, k), path[k], bass[k]);
  }

  /** Every legal line is a path of the walk: its stopping rule on the
      stack size stops at the last soprano note. */
  lemma LegalIsPath(t: Tree, node: Node, count: nat, prevBass: Note, path: seq<Node>, bass: seq<Note>)
    requires ValidTree(t) && OnPath(t, node, count)
    requires LegalLine(t, node, prevBass, path, bass)
    ensures BT.IsPath(RulesOf(t), node, count, prevBass, path, bass)
  {
    var r := RulesOf(t);
    forall k | 0 <= k < |path|
      ensures path[k] in r.children(BT.Before(node, path, k))
      ensures r.take(BT.Before(node, path, k), BT.Before(prevBass, bass, k), path[k]) == Some(bass[k])
    {
      assert MoveAt(t, node, prevBass, path, bass, k);
      TakeIsStep(t, BT.Before(node, path, k), BT.Before(prevBass, bass, k), path[k], bass[k]);
    }
    BT.MovesMakePath(r, node, count, prevBass, path, bass);
  }

  /** What every note of a legal line satisfies. */
  predicate SoundsRight(t: Tree, n: Node, b: Note)
    requires n.noteIdx < |t.soprano|
  {
    && LowestBassPitch <= b.pitch <= HighestBassPitch
    && b.duration == t.soprano[n.noteIdx].duration
    && 0 <= n.chord.inversion < |n.chord.notes|
    && b.name == Voiced(n.chord).name
    && IsContained([t.soprano[n.noteIdx]], n.chord)
    && n.chord.degree != 7
    && (n.noteIdx == |t.soprano| - 1 ==> n.chord.inversion == Root)
  }

  /** One legal move: the chord is one the previous chord may lead to and
      holds the soprano note's name, the bass
      stays in range and moves right from the previous bass note, no chord
      sits on degree 7, and the last chord is in root position. */
  lemma StepFacts(t: Tree, from: Node, prevBass: Note, to: Node, bass: Note)
    requires ValidTree(t) && from.noteIdx + 1 < |t.soprano|
    requires Step(t, from, prevBass, to, bass)
    ensures to.noteIdx == from.noteIdx + 1
    ensures SoundsRight(t, to, bass)
    ensures MovesRight(t.key, t.soprano[from.noteIdx], t.soprano[from.noteIdx + 1], from.chord, prevBass, bass)
    ensures to.chord.degree in from.chord.destinations
  {
    DestinationsSound(t.key, t.soprano, from);
    PitchFacts(t, from, prevBass, to.chord, bass);
    ValidInversionTable(|t.soprano|, to, from);
  }

  /** A bass note `legalBassPitch` places for `dest` is in range and moves
      right from `prevBass`. */
  lemma PitchFacts(t: Tree, cursor: Node, prevBass: Note, dest: Chord, b: Note)
    requires ValidKey(t.key) && cursor.noteIdx + 1 < |t.soprano| && 0 <= dest.inversion < |dest.notes|
    requires LegalBassPitch(t.key, t.soprano, cursor, prevBass, dest) == Some(b.pitch)
    requires b.name == Voiced(dest).name
    ensures LowestBassPitch <= b.pitch <= HighestBassPitch
    ensures MovesRight(t.key, t.soprano[cursor.noteIdx], t.soprano[cursor.noteIdx + 1], cursor.chord, prevBass, b)
  {
    LegalBassPitchMeaning(t.key, t.soprano, cursor, prevBass, dest);
  }

  /** Note `k` of a legal line sits under soprano note
      `node.noteIdx + 1 + k`. */
  lemma {:induction false} LineNoteAt(t: Tree, node: Node, prevBass: Note, path: seq<Node>, bass: seq<Note>, k: nat)
    requires ValidTree(t) && LegalLine(t, node, prevBass, path, bass) && k < |path|
    ensures path[k].noteIdx == node.noteIdx + 1 + k
    decreases k
  {
    MoveAdvances(t, node, prevBass, path, bass, k);
    if k > 0 {
      LineNoteAt(t, node, prevBass, path, bass, k - 1);
    }
  }

  /** Each move of a legal line goes on to the next soprano note. */
  lemma MoveAdvances(t: Tree, node: Node, prevBass: Note, path: seq<Node>, bass: seq<Note>, k: nat)
    requires ValidTree(t) && LegalLine(t, node, prevBass, path, bass) && k < |path|
    ensures path[k].noteIdx == BT.Before(node, path, k).noteIdx + 1
  {
    assert MoveAt(t, node, prevBass, path, bass, k);
    StepAdvances(t, BT.Before(node, path, k), BT.Before(prevBass, bass, k), path[k], bass[k]);
  }

  /** A legal move goes on to the next soprano note. */
  lemma StepAdvances(t: Tree, from: Node, prevBass: Note, to: Node, bass: Note)
    requires ValidTree(t) && from.noteIdx + 1 < |t.soprano|
    requires Step(t, from, prevBass, to, bass)
    ensures to.noteIdx == from.noteIdx + 1
  {
    DestinationsSound(t.key, t.soprano, from);
  }

  /** The checks `legalBassPitch` makes of bass note `b` after `prevBass`,
      which sits under soprano note `sop` with chord `prevChord` while `b`
      sits under `nextSop`: a leap of at most a fifth and never a tritone,
      the leading tone rising a semitone to the tonic, a step down after a
      chord in third inversion, no rising fifth in both outer voices, and
      no collision of the bass with the soprano's names on both notes. */
  predicate MovesRight(key: Key, sop: Note, nextSop: Note, prevChord: Chord, prevBass: Note, b: Note)
    requires ValidKey(key)
  {
    var leap := b.pitch - prevBass.pitch;
    && -LargestBassLeap <= leap <= LargestBassLeap
    && leap != 6 && leap != -6
    && (LeadingNeed(key, prevBass) ==> b.name == key.chords[0].notes[0].name && leap == 1)
    && (prevChord.inversion == Third ==> leap == -1)
    && !(leap == 7 && nextSop.pitch - sop.pitch == 7)
    && !(b.name == nextSop.name && prevBass.name == sop.name)
  }

  /** A bass line of chords and notes, following `prevBass` and
      `prevChord`, over the soprano notes after note `after`: one per note,
      each sounding right and moving right from the one before it, and each
      chord a destination of the chord before it. */
  predicate LineSoundsRight(t: Tree, after: nat, prevChord: Chord, prevBass: Note, chords: seq<Chord>, bass: seq<Note>)
    requires ValidKey(t.key)
  {
    && |chords| == |bass| == |t.soprano| - 1 - after
    && (forall k | 0 <= k < |bass| :: SoundsRight(t, Node(chords[k], after + 1 + k), bass[k]))
    && (forall k | 0 <= k < |bass| ::
          MovesRight(t.key, t.soprano[after + k], t.soprano[after + k + 1],
                     BT.Before(prevChord, chords, k), BT.Before(prevBass, bass, k), bass[k]))
    && (forall k | 0 <= k < |chords| :: chords[k].degree in BT.Before(prevChord, chords, k).destinations)
  }

  // ---------------------------------------------------------------------
  // The chord tree

  /** The chords of a path, in order. */
  function ChordsOf(path: seq<Node>): (r: seq<Chord>)
    ensures |r| == |path|
    ensures forall k | 0 <= k < |path| :: r[k] == path[k].chord
  {
    if |path| == 0 then [] else [path[0].chord] + ChordsOf(path[1..])
  }

  /** The sentinel: the seed chord under the soprano note the given bass
      line ends with. */
  function Sentinel(t: Tree, seedChord: Chord): Node
  {
    Node(seedChord, t.start)
  }

  /** `ChordTree`'s constructor and `getPath`: the stacks start with the seed
      bass note and chord, the walk runs from the sentinel, and the seeds
      are erased from the front; nothing when the walk is exhausted (the
      source prints that it could not solve the line and exits). */
  function GetPath(t: Tree, seedBass: Note, seedChord: Chord, rng: nat -> nat): (r: Option<(seq<Note>, seq<Chord>)>)
    requires ValidTree(t)
  {
    assert OnPath(t, Sentinel(t, seedChord), 1);
    match BT.Explore(RulesOf(t), Sentinel(t, seedChord), 1, seedBass, 0, rng)
    case Exhausted(_) => None
    case Solved(path, written, _) =>
      var bassLine := [seedBass] + written;
      var chords := [seedChord] + ChordsOf(path);
      Some((bassLine[1..], chords[1..]))
  }

  /** Some legal line carries the bass on from `node`. */
  ghost predicate HasContinuation(t: Tree, node: Node, prevBass: Note)
    requires ValidTree(t)
  {
    exists path, bass :: LegalLine(t, node, prevBass, path, bass)
  }

  /** `getPath` returns a legal continuation of the given bass line, one
      note and chord per remaining soprano note, whenever one exists, and
      nothing otherwise, whatever the random draws. */
  lemma GetPathDecides(t: Tree, seedBass: Note, seedChord: Chord, rng: nat -> nat)
    requires ValidTree(t)
    ensures var r := GetPath(t, seedBass, seedChord, rng);
            && (r.Some? <==> HasContinuation(t, Sentinel(t, seedChord), seedBass))
            && (r.Some? ==> exists path ::
                  && LegalLine(t, Sentinel(t, seedChord), seedBass, path, r.value.0)
                  && r.value.1 == ChordsOf(path))
  {
    var node := Sentinel(t, seedChord);
    var rules := RulesOf(t);
    assert OnPath(t, node, 1);
    var o := BT.Explore(rules, node, 1, seedBass, 0, rng);
    BT.ExploreDecides(rules, node, 1, seedBass, 0, rng);
    BT.ExploreSound(rules, node, 1, seedBass, 0, rng);
    if o.Solved? {
      PathIsLegal(t, node, 1, seedBass, o.path, o.written);
      assert ([seedBass] + o.written)[1..] == o.written;
      assert ([seedChord] + ChordsOf(o.path))[1..] == ChordsOf(o.path);
    }
    if HasContinuation(t, node, seedBass) {
      var path, bass :| LegalLine(t, node, seedBass, path, bass);
      LegalIsPath(t, node, 1, seedBass, path, bass);
      assert BT.IsPath(rules, node, 1, seedBass, path, bass);
    }
  }

  /** Every note `getPath` returns sits under the next soprano note, sounds
      right and moves right from the note before it, the seed note
      included, and every chord is a destination of the chord before it,
      the seed chord first. */
  lemma GetPathSound(t: Tree, seedBass: Note, seedChord: Chord, rng: nat -> nat)
    requires ValidTree(t)
    ensures var r := GetPath(t, seedBass, seedChord, rng);
            r.Some? ==> LineSoundsRight(t, t.start, seedChord, seedBass, r.value.1, r.value.0)
  {
    GetPathDecides(t, seedBass, seedChord, rng);
    var r := GetPath(t, seedBass, seedChord, rng);
    if r.Some? {
      var node := Sentinel(t, seedChord);
      var path :| LegalLine(t, node, seedBass, path, r.value.0) && r.value.1 == ChordsOf(path);
      LineSounds(t, node, seedBass, path, r.value.0);
    }
  }

  // ---------------------------------------------------------------------
  // writeBassLine

  /** Why `writeBassLine` writes nothing. */
  datatype BassLineError =
    | Misaligned        // the given bass line ends inside a soprano note
    | OutlastsSoprano   // the given bass line lasts longer than the soprano line
    | NothingToWrite    // the given bass line already ends with the soprano line
    | Unsolvable        // no continuation obeys the rules
    | NoLastBassNote    // aligned with notes left, but no given bass note to seed the walk with

  /** The beats the first `n` notes of a line last. */
  function Beats(line: seq<Note>, n: nat): int
    requires n <= |line|
  {
    if n == 0 then 0 else Beats(line, n - 1) + line[n - 1].duration
  }

  /** The alignment loop of `writeBassLine` from soprano note `idx`, with
      `beats` counted before it: the first note at which the count reaches
      `target`, an error when it passes it. */
  function AlignFrom(soprano: seq<Note>, idx: nat, beats: int, target: int): (r: Result<nat, BassLineError>)
    requires idx <= |soprano|
    decreases |soprano| - idx
  {
    if idx == |soprano| then Err(OutlastsSoprano)
    else
      var count := beats + soprano[idx].duration;
      if count == target then Ok(idx)
      else if count > target then Err(Misaligned)
      else AlignFrom(soprano, idx + 1, count, target)
  }

  /** The soprano note the given bass line ends under. */
  function AlignStart(soprano: seq<Note>, target: int): Result<nat, BassLineError>
  {
    AlignFrom(soprano, 0, 0, target)
  }

  /** The soprano prefixes that end at or before note `idx - 1` all last
      less than `target`. */
  predicate ShortBefore(soprano: seq<Note>, idx: nat, target: int)
    requires idx <= |soprano|
  {
    forall j | 1 <= j <= idx :: Beats(soprano, j) < target
  }

  lemma {:induction false} AlignFromMeaning(soprano: seq<Note>, idx: nat, beats: int, target: int)
    requires idx <= |soprano| && beats == Beats(soprano, idx) && ShortBefore(soprano, idx, target)
    ensures var r := AlignFrom(soprano, idx, beats, target);
            && (r.Ok? ==> r.value < |soprano| && Beats(soprano, r.value + 1) == target && ShortBefore(soprano, r.value, target))
            && (r == Err(Misaligned) ==> exists s | idx <= s < |soprano| ::
                  Beats(soprano, s + 1) > target && ShortBefore(soprano, s, target))
            && (r == Err(OutlastsSoprano) ==> ShortBefore(soprano, |soprano|, target))
            && r != Err(NothingToWrite) && r != Err(Unsolvable) && r != Err(NoLastBassNote)
    decreases |soprano| - idx
  {
    if idx < |soprano| {
      var count := beats + soprano[idx].duration;
      assert count == Beats(soprano, idx + 1);
      if count < target {
        AlignFromMeaning(soprano, idx + 1, count, target);
      }
    }
  }

  /** The alignment loop finds the soprano note at which the given bass line's
      beats are first reached exactly; it fails when they are passed inside
      a note or never reached. */
  lemma AlignStartMeaning(soprano: seq<Note>, target: int)
    ensures var r := AlignStart(soprano, target);
            && (r.Ok? ==> r.value < |soprano| && Beats(soprano, r.value + 1) == target && ShortBefore(soprano, r.value, target))
            && (r == Err(Misaligned) ==> exists s | 0 <= s < |soprano| ::
                  Beats(soprano, s + 1) > target && ShortBefore(soprano, s, target))
            && (r == Err(OutlastsSoprano) ==> ShortBefore(soprano, |soprano|, target))
            && (r.Err? ==> r.error == Misaligned || r.error == OutlastsSoprano)
  {
    AlignFromMeaning(soprano, 0, 0, target);
  }

  /** `writeBassLine` (bassline_maker.cpp): align the given bass line with the
      soprano line, seed the tree with the key's chord on `finalDegree` and
      the last given bass note, and return the notes and chords the walk
      adds. */
  function WriteBassLine(key: Key, soprano: seq<Note>, bassLine: seq<Note>, finalDegree: int, rng: nat -> nat)
    : (r: Result<(seq<Note>, seq<Chord>), BassLineError>)
    requires ValidKey(key) && 1 <= finalDegree <= 7
  {
    var preBassLineLength := Beats(bassLine, |bassLine|);
    AlignStartMeaning(soprano, preBassLineLength);
    match AlignStart(soprano, preBassLineLength)
    case Err(e) => Err(e)
    case Ok(start) =>
      if start + 1 == |soprano| then Err(NothingToWrite)
      else if |bassLine| == 0 then Err(NoLastBassNote)
      else
        var nodeTraversalGoal := |soprano| - 1 - start;
        var t := TreeFor(key, soprano, start);
        assert t.goal == nodeTraversalGoal + 1;
        match GetPath(t, bassLine[|bassLine| - 1], ChordAt(key, finalDegree - 1), rng)
        case None => Err(Unsolvable)
        case Some(out) => Ok(out)
  }

  /** The tree `writeBassLine` builds once the given bass line is aligned
      under soprano note `start`. */
  function TreeFor(key: Key, soprano: seq<Note>, start: nat): (t: Tree)
    requires ValidKey(key) && start + 1 < |soprano|
    ensures ValidTree(t)
  {
    Tree(key, soprano, start, |soprano| - start)
  }

  /** `writeBassLine` once aligned: the walk on the tree `TreeFor` builds.
      An empty given bass line is misaligned as soon as the first soprano
      note lasts; aligned with notes left, it has no last note to seed the
      walk with. */
  lemma WriteBassLineAligned(key: Key, soprano: seq<Note>, bassLine: seq<Note>, finalDegree: int, rng: nat -> nat)
    requires ValidKey(key) && 1 <= finalDegree <= 7
    ensures var r := WriteBassLine(key, soprano, bassLine, finalDegree, rng);
            var a := AlignStart(soprano, Beats(bassLine, |bassLine|));
            && (a.Err? ==> r.Err? && r.error != Unsolvable)
            && (a.Ok? ==> a.value < |soprano|)
            && (a.Ok? && a.value + 1 == |soprano| ==> r == Err(NothingToWrite))
            && (|bassLine| == 0 && |soprano| > 0 && soprano[0].duration > 0 ==> r == Err(Misaligned))
            && (a.Ok? && a.value + 1 < |soprano| && |bassLine| == 0 ==> r == Err(NoLastBassNote))
            && (a.Ok? && a.value + 1 < |soprano| && |bassLine| > 0 ==>
                  var g := GetPath(TreeFor(key, soprano, a.value), bassLine[|bassLine| - 1], ChordAt(key, finalDegree - 1), rng);
                  r == if g.Some? then Ok(g.value) else Err(Unsolvable))
  {
    AlignStartMeaning(soprano, Beats(bassLine, |bassLine|));
  }

  /** Some legal continuation follows the given bass line's last note and
      the key's chord on `finalDegree` under soprano note `start`. */
  ghost predicate Solvable(key: Key, soprano: seq<Note>, start: nat, seedBass: Note, finalDegree: int)
    requires ValidKey(key) && start + 1 < |soprano| && 1 <= finalDegree <= 7
  {
    var t := TreeFor(key, soprano, start);
    HasContinuation(t, Sentinel(t, ChordAt(key, finalDegree - 1)), seedBass)
  }

  /** What `writeBassLine` returns: one note and chord for each soprano note
      after the one the given bass line ends under, every note sounding
      right (in range, as long as its soprano note, voicing a tone of a chord
      that holds the soprano note's name, no chord on degree 7, the last
      chord in root position), moving right from the note before it, the
      given bass line's last note included, and every chord a destination
      of the chord before it, the final degree's chord first. */
  lemma WriteBassLineSound(key: Key, soprano: seq<Note>, bassLine: seq<Note>, finalDegree: int, rng: nat -> nat)
    requires ValidKey(key) && 1 <= finalDegree <= 7
    ensures var r := WriteBassLine(key, soprano, bassLine, finalDegree, rng);
            var a := AlignStart(soprano, Beats(bassLine, |bassLine|));
            r.Ok? ==>
              && a.Ok? && a.value + 1 < |soprano| && |bassLine| > 0
              && LineSoundsRight(TreeFor(key, soprano, a.value), a.value, ChordAt(key, finalDegree - 1),
                                 bassLine[|bassLine| - 1], r.value.1, r.value.0)
  {
    var a := AlignStart(soprano, Beats(bassLine, |bassLine|));
    WriteBassLineAligned(key, soprano, bassLine, finalDegree, rng);
    if a.Ok? && a.value + 1 < |soprano| && |bassLine| > 0 {
      GetPathSound(TreeFor(key, soprano, a.value), bassLine[|bassLine| - 1], ChordAt(key, finalDegree - 1), rng);
    }
  }

  /** `writeBassLine` reports an unsolvable line exactly when it is aligned,
      leaves soprano notes to harmonise after a given bass note and no legal
      continuation exists,
      whatever the random draws. */
  lemma WriteBassLineFails(key: Key, soprano: seq<Note>, bassLine: seq<Note>, finalDegree: int, rng: nat -> nat)
    requires ValidKey(key) && 1 <= finalDegree <= 7
    ensures var r := WriteBassLine(key, soprano, bassLine, finalDegree, rng);
            var a := AlignStart(soprano, Beats(bassLine, |bassLine|));
            r == Err(Unsolvable) <==>
              && a.Ok? && a.value + 1 < |soprano| && |bassLine| > 0
              && !Solvable(key, soprano, a.value, bassLine[|bassLine| - 1], finalDegree)
  {
    var a := AlignStart(soprano, Beats(bassLine, |bassLine|));
    WriteBassLineAligned(key, soprano, bassLine, finalDegree, rng);
    if a.Ok? && a.value + 1 < |soprano| && |bassLine| > 0 {
      var t := TreeFor(key, soprano, a.value);
      GetPathDecides(t, bassLine[|bassLine| - 1], ChordAt(key, finalDegree - 1), rng);
    }
  }
}
