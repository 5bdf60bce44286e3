/** The small string and line helpers of file_util.cpp: building and
    reading one MusicXML element, and moving a line cursor to the next line
    that mentions a tag. A cursor is an index into the file's lines; the
    end iterator is the index `|lines|`, the begin iterator 0. */
module FileUtil {
  import opened Outcomes
  import opened Strings

  /** `makeAttribute`: the element `name` enclosing `body`. */
  function MakeAttribute(name: string, body: string): (r: string)
    ensures |r| == 2 * |name| + |body| + 5
    ensures r[..|name| + 2] == "<" + name + ">"
    ensures r[|name| + 2..|name| + 2 + |body|] == body
    ensures r[|name| + 2 + |body|..] == "</" + name + ">"
  {
    "<" + name + ">" + body + "</" + name + ">"
  }

  /** The first position at or after `from` holding `c`, if any. */
  function FirstIndex(s: string, c: char, from: nat): (r: Option<nat>)
    requires from <= |s|
    ensures r.Some? ==> from <= r.value < |s| && s[r.value] == c
    ensures r.Some? ==> forall j | from <= j < r.value :: s[j] != c
    ensures r.None? ==> forall j | from <= j < |s| :: s[j] != c
    decreases |s| - from
  {
    if from == |s| then None
    else if s[from] == c then Some(from)
    else FirstIndex(s, c, from + 1)
  }

  /** `enclosedString`: the characters after the first `left` up to the
      next `right`. The source reads past the end of the string when either
      delimiter is missing; the model answers nothing there. */
  function EnclosedString(s: string, left: char, right: char): (r: Option<string>)
    ensures r.Some? <==> exists i, j | 0 <= i < j < |s| :: s[i] == left && s[j] == right && FirstIndex(s, left, 0) == Some(i)
    ensures r.Some? ==>
              var i := FirstIndex(s, left, 0).value;
              && i + 1 + |r.value| < |s|
              && s[i + 1..i + 1 + |r.value|] == r.value
              && s[i + 1 + |r.value|] == right
              && right !in r.value
  {
    match FirstIndex(s, left, 0)
    case None => None
    case Some(i) =>
      match FirstIndex(s, right, i + 1)
      case None => None
      case Some(j) => Some(s[i + 1..j])
  }

  /** Reading an element back: when the tag name holds no '>', the text
      enclosed by '>' and '<' is the body exactly when the body holds no '<'. */
  lemma EnclosedAttribute(name: string, body: string)
    requires '>' !in name
    ensures EnclosedString(MakeAttribute(name, body), '>', '<') == Some(body) <==> '<' !in body
  {
    var s := MakeAttribute(name, body);
    var n := |name|;
    assert s[n + 1] == '>';
    assert forall j | 0 <= j < n + 1 :: s[j] != '>' by {
      forall j | 0 <= j < n + 1 ensures s[j] != '>' {
        if j > 0 { assert s[j] == name[j - 1]; }
      }
    }
    assert FirstIndex(s, '>', 0) == Some(n + 1);
    if '<' !in body {
      assert s[n + 2 + |body|] == '<';
      forall j | n + 2 <= j < n + 2 + |body| ensures s[j] != '<' {
        assert s[j] == body[j - n - 2];
      }
      assert FirstIndex(s, '<', n + 2) == Some(n + 2 + |body|);
      assert s[n + 2..n + 2 + |body|] == body;
    }
  }

  /** `skipToEitherLine`: from `at`, the first line that mentions `a` or
      `b`, or the end. */
  function SkipToEitherLine(lines: seq<string>, at: nat, a: string, b: string): (r: nat)
    requires at <= |lines|
    ensures at <= r <= |lines|
    ensures forall k | at <= k < r :: !Contains(lines[k], a) && !Contains(lines[k], b)
    ensures r < |lines| ==> Contains(lines[r], a) || Contains(lines[r], b)
    decreases |lines| - at
  {
    if at == |lines| || Contains(lines[at], a) || Contains(lines[at], b) then at
    else SkipToEitherLine(lines, at + 1, a, b)
  }

  /** Skipping again from where a skip stopped stays put. */
  lemma SkipToEitherLineIdempotent(lines: seq<string>, at: nat, a: string, b: string)
    requires at <= |lines|
    ensures var r := SkipToEitherLine(lines, at, a, b);
            SkipToEitherLine(lines, r, a, b) == r
  {
  }

  /** The cursor positions a walk by `step` from `at` to `end` passes
      through, `end` excluded: `end` is the stop the source compares with. */
  predicate Between(at: int, end: int, step: int, k: int)
  {
    if step == 1 then at <= k < end else end < k <= at
  }

  /** A walk the source can make without leaving the lines: forwards up to
      the end, or backwards down to a line that exists. */
  predicate WalkOk(lines: seq<string>, at: int, end: int, step: int)
  {
    || (step == 1 && 0 <= at <= end <= |lines|)
    || (step == -1 && 0 <= end <= at < |lines|)
  }

  /** `skipToLine`: from `at`, step by `step` (1 or -1) until a line
      mentions `sub` or the cursor reaches `end`, which is never read. */
  function SkipToLine(lines: seq<string>, at: int, end: int, sub: string, step: int): (r: int)
    requires WalkOk(lines, at, end, step)
    ensures r == end || Between(at, end, step, r)
    ensures r != end ==> 0 <= r < |lines| && Contains(lines[r], sub)
    ensures forall k | Between(at, end, step, k) && Between(r, end, step, k) == false :: 0 <= k < |lines| && !Contains(lines[k], sub)
    decreases (end - at) * step
  {
    if at == end || Contains(lines[at], sub) then at
    else SkipToLine(lines, at + step, end, sub, step)
  }

  /** A cursor already on a matching line does not move. */
  lemma SkipToLineStays(lines: seq<string>, at: int, end: int, sub: string, step: int)
    requires WalkOk(lines, at, end, step) && at != end && Contains(lines[at], sub)
    ensures SkipToLine(lines, at, end, sub, step) == at
  {
  }

  /** Skipping again from where a skip stopped stays put. */
  lemma SkipToLineIdempotent(lines: seq<string>, at: int, end: int, sub: string, step: int)
    requires WalkOk(lines, at, end, step)
    ensures var r := SkipToLine(lines, at, end, sub, step);
            WalkOk(lines, r, end, step) && SkipToLine(lines, r, end, sub, step) == r
  {
  }
}
