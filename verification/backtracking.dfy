/** The backtracking walk of `ChordTree::explore` (bassline_maker.cpp),
    stated once for any rules: from the cursor, draw an unexplored child at
    random, drop it when the rules refuse it, otherwise push what the rules
    write for it and go on below it until the stack holds `goal` entries;
    a child whose subtree is used up is popped and dropped, and a cursor
    with no unexplored child left is backtracked over. */
module Backtracking {
  import opened Outcomes

  /** The rules a walk consults: the children of a node (generated once per
      visit), what is written for a drawn child after the entry on top of
      the stack (nothing when the child is refused), and the stack size at
      which the walk stops. */
  datatype Rules<!N, !B> = Rules(children: N -> seq<N>, take: (N, B, N) -> Option<B>, goal: nat)

  /** How a walk from one cursor ends: with the children and entries pushed
      below it, or with every child explored; `draws` counts the random
      draws made so far. */
  datatype Outcome<N, B> = Solved(path: seq<N>, written: seq<B>, draws: nat) | Exhausted(draws: nat)

  /** The index a draw `x` selects among `n` unexplored children: `x`
      reduced modulo `n`. */
  function Pick(x: nat, n: nat): (i: nat)
    requires n > 0
    ensures i < n
  {
    if x < n then x else Pick(x - n, n)
  }

  /** The unexplored children once the one at `i` is marked explored, the
      others keeping their order. */
  function Without<N>(s: seq<N>, i: nat): (r: seq<N>)
    requires i < |s|
    ensures |r| == |s| - 1
    ensures forall j | 0 <= j < |r| :: r[j] == (if j < i then s[j] else s[j + 1])
  {
    s[..i] + s[i + 1..]
  }

  lemma WithoutKeeps<N>(s: seq<N>, i: nat, x: N)
    requires i < |s| && x in s && x != s[i]
    ensures x in Without(s, i)
  {
    var j :| 0 <= j < |s| && s[j] == x;
    var r := Without(s, i);
    if j < i {
      assert r[j] == x;
    } else {
      assert r[j - 1] == x;
    }
  }

  /** `explore` with `node` as the cursor and `prev` on top of a stack of
      `count` entries. */
  function Explore<N(==), B>(r: Rules<N, B>, node: N, count: nat, prev: B, draws: nat, rng: nat -> nat): (o: Outcome<N, B>)
    requires count < r.goal
    ensures o.draws >= draws
    ensures o.Solved? ==> |o.path| == |o.written| == r.goal - count
    decreases r.goal - count, 1, 0
  {
    TryDestinations(r, node, count, prev, r.children(node), draws, rng)
  }

  /** The `explore` calls made at one cursor while `unexplored` is left. */
  function TryDestinations<N(==), B>(r: Rules<N, B>, node: N, count: nat, prev: B, unexplored: seq<N>,
                                     draws: nat, rng: nat -> nat): (o: Outcome<N, B>)
    requires count < r.goal
    ensures o.draws >= draws
    ensures o.Solved? ==> |o.path| == |o.written| == r.goal - count
    decreases r.goal - count, 0, |unexplored|
  {
    if |unexplored| == 0 then Exhausted(draws)
    else
      var i := Pick(rng(draws), |unexplored|);
      var dest := unexplored[i];
      var rest := Without(unexplored, i);
      match r.take(node, prev, dest)
      case None => TryDestinations(r, node, count, prev, rest, draws + 1, rng)
      case Some(b) =>
        if count + 1 == r.goal then Solved([dest], [b], draws + 1)
        else
          match Explore(r, dest, count + 1, b, draws + 1, rng)
          case Solved(p, w, d) => Solved([dest] + p, [b] + w, d)
          case Exhausted(d) => TryDestinations(r, node, count, prev, rest, d, rng)
  }

  /** `path` and `written` carry the walk on from `node` to the goal: each
      node a child of the one before that the rules accept, with what the
      rules write for it. */
  predicate IsPath<N(==), B(==)>(r: Rules<N, B>, node: N, count: nat, prev: B, path: seq<N>, written: seq<B>)
    decreases |path|
  {
    && count < r.goal
    && |path| == |written| > 0
    && path[0] in r.children(node)
    && r.take(node, prev, path[0]) == Some(written[0])
    && if count + 1 == r.goal then |path| == 1
       else IsPath(r, path[0], count + 1, written[0], path[1..], written[1..])
  }

  /** Some path carries the walk on from `node` to the goal. */
  ghost predicate Completable<N(!new), B(!new)>(r: Rules<N, B>, node: N, count: nat, prev: B)
  {
    exists path, written :: IsPath(r, node, count, prev, path, written)
  }

  /** A solved walk returns a path. */
  lemma {:induction false} ExploreSound<N, B>(r: Rules<N, B>, node: N, count: nat, prev: B, draws: nat, rng: nat -> nat)
    requires count < r.goal
    ensures var o := Explore(r, node, count, prev, draws, rng);
            o.Solved? ==> IsPath(r, node, count, prev, o.path, o.written)
    decreases r.goal - count, 1, 0
  {
    TryDestinationsSound(r, node, count, prev, r.children(node), draws, rng);
  }

  lemma {:induction false} TryDestinationsSound<N, B>(r: Rules<N, B>, node: N, count: nat, prev: B, unexplored: seq<N>,
                                                              draws: nat, rng: nat -> nat)
    requires count < r.goal
    requires forall n | n in unexplored :: n in r.children(node)
    ensures var o := TryDestinations(r, node, count, prev, unexplored, draws, rng);
            o.Solved? ==> IsPath(r, node, count, prev, o.path, o.written)
    decreases r.goal - count, 0, |unexplored|
  {
    if |unexplored| > 0 {
      var i := Pick(rng(draws), |unexplored|);
      var dest := unexplored[i];
      var rest := Without(unexplored, i);
      assert forall n | n in rest :: n in unexplored;
      match r.take(node, prev, dest)
      case None =>
        TryDestinationsSound(r, node, count, prev, rest, draws + 1, rng);
      case Some(b) =>
        if count + 1 != r.goal {
          var o := Explore(r, dest, count + 1, b, draws + 1, rng);
          ExploreSound(r, dest, count + 1, b, draws + 1, rng);
          if o.Solved? {
            var p, w := [dest] + o.path, [b] + o.written;
            assert p[1..] == o.path && w[1..] == o.written;
            assert IsPath(r, node, count, prev, p, w);
          } else {
            TryDestinationsSound(r, node, count, prev, rest, o.draws, rng);
          }
        }
    }
  }

  /** Whatever the draws, the walk finds a path from `node` whenever one
      exists. */
  lemma {:induction false} ExploreComplete<N, B>(r: Rules<N, B>, node: N, count: nat, prev: B, draws: nat, rng: nat -> nat,
                                                         path: seq<N>, written: seq<B>)
    requires IsPath(r, node, count, prev, path, written)
    ensures Explore(r, node, count, prev, draws, rng).Solved?
    decreases r.goal - count, 1, 0
  {
    TryDestinationsComplete(r, node, count, prev, r.children(node), draws, rng, path, written);
  }

  lemma {:induction false} TryDestinationsComplete<N, B>(r: Rules<N, B>, node: N, count: nat, prev: B, unexplored: seq<N>,
                                                                 draws: nat, rng: nat -> nat, path: seq<N>, written: seq<B>)
    requires IsPath(r, node, count, prev, path, written) && path[0] in unexplored
    ensures TryDestinations(r, node, count, prev, unexplored, draws, rng).Solved?
    decreases r.goal - count, 0, |unexplored|
  {
    var i := Pick(rng(draws), |unexplored|);
    var dest := unexplored[i];
    var rest := Without(unexplored, i);
    if dest != path[0] {
      WithoutKeeps(unexplored, i, path[0]);
      match r.take(node, prev, dest)
      case None =>
        TryDestinationsComplete(r, node, count, prev, rest, draws + 1, rng, path, written);
      case Some(b) =>
        if count + 1 != r.goal {
          var o := Explore(r, dest, count + 1, b, draws + 1, rng);
          if o.Exhausted? {
            TryDestinationsComplete(r, node, count, prev, rest, o.draws, rng, path, written);
          }
        }
    } else if count + 1 != r.goal {
      ExploreComplete(r, path[0], count + 1, written[0], draws + 1, rng, path[1..], written[1..]);
    }
  }

  /** The walk succeeds exactly when a path exists. */
  lemma ExploreDecides<N(!new), B(!new)>(r: Rules<N, B>, node: N, count: nat, prev: B, draws: nat, rng: nat -> nat)
    requires count < r.goal
    ensures Explore(r, node, count, prev, draws, rng).Solved? <==> Completable(r, node, count, prev)
  {
    var o := Explore(r, node, count, prev, draws, rng);
    if o.Solved? {
      ExploreSound(r, node, count, prev, draws, rng);
      assert IsPath(r, node, count, prev, o.path, o.written);
    }
    if Completable(r, node, count, prev) {
      var path, written :| IsPath(r, node, count, prev, path, written);
      ExploreComplete(r, node, count, prev, draws, rng, path, written);
    }
  }

  /** The node (or entry) before position `k` of a path: the start for
      the first. */
  function Before<T>(start: T, path: seq<T>, k: nat): T
    requires k <= |path|
  {
    if k == 0 then start else path[k - 1]
  }

  /** A path reaches the goal: one entry per stack slot left. */
  lemma {:induction false} PathLength<N, B>(r: Rules<N, B>, node: N, count: nat, prev: B, path: seq<N>, written: seq<B>)
    requires IsPath(r, node, count, prev, path, written)
    ensures |path| == |written| == r.goal - count
    decreases |path|
  {
    if count + 1 != r.goal {
      PathLength(r, path[0], count + 1, written[0], path[1..], written[1..]);
    }
  }

  /** Move `k` of a path goes to a child of the node before it, which the
      rules accept with the entry it writes. */
  lemma {:induction false} PathMoveAt<N, B>(r: Rules<N, B>, node: N, count: nat, prev: B, path: seq<N>, written: seq<B>, k: nat)
    requires IsPath(r, node, count, prev, path, written) && k < |path|
    ensures path[k] in r.children(Before(node, path, k))
    ensures r.take(Before(node, path, k), Before(prev, written, k), path[k]) == Some(written[k])
    decreases k
  {
    if k > 0 {
      PathMoveAt(r, path[0], count + 1, written[0], path[1..], written[1..], k - 1);
      assert path[k] == path[1..][k - 1] && written[k] == written[1..][k - 1];
      assert Before(node, path, k) == Before(path[0], path[1..], k - 1);
      assert Before(prev, written, k) == Before(written[0], written[1..], k - 1);
    }
  }

  /** Moves the rules accept, one per stack slot left, make a path. */
  lemma {:induction false} MovesMakePath<N, B>(r: Rules<N, B>, node: N, count: nat, prev: B, path: seq<N>, written: seq<B>)
    requires count < r.goal && |path| == |written| == r.goal - count
    requires forall k | 0 <= k < |path| ::
               && path[k] in r.children(Before(node, path, k))
               && r.take(Before(node, path, k), Before(prev, written, k), path[k]) == Some(written[k])
    ensures IsPath(r, node, count, prev, path, written)
    decreases |path|
  {
    assert path[0] in r.children(Before(node, path, 0));
    if count + 1 != r.goal {
      forall k | 0 <= k < |path| - 1
        ensures path[1..][k] in r.children(Before(path[0], path[1..], k))
        ensures r.take(Before(path[0], path[1..], k), Before(written[0], written[1..], k), path[1..][k]) == Some(written[1..][k])
      {
        assert path[1..][k] == path[k + 1] && written[1..][k] == written[k + 1];
        assert Before(path[0], path[1..], k) == Before(node, path, k + 1);
        assert Before(written[0], written[1..], k) == Before(prev, written, k + 1);
      }
      MovesMakePath(r, path[0], count + 1, written[0], path[1..], written[1..]);
    }
  }

  /** Whether the walk succeeds does not depend on the random draws. */
  lemma SuccessIgnoresDraws<N(!new), B(!new)>(r: Rules<N, B>, node: N, count: nat, prev: B, rng1: nat -> nat, rng2: nat -> nat)
    requires count < r.goal
    ensures Explore(r, node, count, prev, 0, rng1).Solved? == Explore(r, node, count, prev, 0, rng2).Solved?
  {
    ExploreDecides(r, node, count, prev, 0, rng1);
    ExploreDecides(r, node, count, prev, 0, rng2);
  }
}
