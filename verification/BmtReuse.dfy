// Handing a tree out again: the flags a release clears, and how long the toggle counters last.
module BmtReuse {
  import opened Powers
  import opened BmtReference
  import opened Bmt
  import opened BmtSchedules
  import opened BmtOverflow

  /**
   * The overflow matters: an even counter makes the first arrival wait exactly when it is not
   * negative, because Go's remainder of a negative number is not 1.
   */
  lemma FirstArrivalWaitsIffNonNegative(c: Chunk, m: Machine, t: nat)
    requires InRange(c, m) && t < |m.routines| && m.routines[t].Toggle?
    requires var node := m.nodes[m.routines[t].n];
      !node.unbalanced && node.state % 2 == 0 && -0x8000_0000 <= node.state <= INT32_MAX
    ensures StepRoutine(c, m, t).Some?
    ensures StepRoutine(c, m, t).value.routines[t].Exited? <==> m.nodes[m.routines[t].n].state >= 0
  {
    var x := m.nodes[m.routines[t].n].state;
    if x < 0 {
      assert Inc32(x) <= -1;
    }
  }

  function Released(node: Node, n: nat): Node {
    if n > 1 then node.(unbalanced := false, root := false) else node.(unbalanced := false)
  }

  /** A tree as it goes back to the pool: the flags on the way from the current leaf to the root are cleared. */
  function ReleasedTree(nodes: seq<Node>, leaf: nat): seq<Node> {
    seq(|nodes|, n requires 0 <= n < |nodes| => if Under(leaf, n) then Released(nodes[n], n) else nodes[n])
  }

  method ReleaseTree(nodes: seq<Node>, leaf: nat) returns (r: seq<Node>)
    requires 1 <= leaf < |nodes|
    ensures r == ReleasedTree(nodes, leaf)
  {
    r := nodes;
    var n: nat := leaf;
    while n != 0
      invariant n < |nodes| == |r| && (forall j: nat :: Under(n, j) ==> Under(leaf, j))
      invariant forall j: nat :: j < |r| ==>
        r[j] == if Under(leaf, j) && !Under(n, j) then Released(nodes[j], j) else nodes[j]
    {
      assert forall j: nat :: Under(n, j) <==> (j == n || Under(n / 2, j));
      r := r[n := Released(r[n], n)];
      n := n / 2;
    }
  }

  /** A finished full chunk leaves nothing to clear. */
  lemma NothingToRelease(c: Chunk, before: seq<Node>, m: Machine, leaf: nat)
    requires Finished(c, before, m)
    ensures ReleasedTree(m.nodes, leaf) == m.nodes
  {
    var r := ReleasedTree(m.nodes, leaf);
    forall n | 0 <= n < |r| ensures r[n] == m.nodes[n] {
      if Under(leaf, n) {
        assert n >= 1;
      }
    }
  }

  /** The tree `after` is the tree `before` once some full chunk was hashed on it and it was released. */
  ghost predicate Reused(before: seq<Node>, after: seq<Node>, leaves: nat) {
    leaves >= 1 && exists c: Chunk, m: Machine ::
      |c.segments| == leaves && Finished(c, before, m) && after == ReleasedTree(m.nodes, 2 * leaves - 1)
  }

  lemma {:induction false} ReusedCounters(before: seq<Node>, after: seq<Node>, leaves: nat)
    requires leaves >= 1 && EvenTree(before, leaves) && Reused(before, after, leaves)
    ensures |after| == |before| == 2 * leaves && EvenTree(after, leaves)
    ensures forall n :: 1 <= n < leaves ==> after[n].state == Inc32(before[n].state + 1)
  {
    var c: Chunk, m: Machine :|
      |c.segments| == leaves && Finished(c, before, m) && after == ReleasedTree(m.nodes, 2 * leaves - 1);
    NothingToRelease(c, before, m, 2 * leaves - 1);
    forall n | 1 <= n < |after| ensures EvenNode(after[n], n, leaves) {
      assert EvenNode(before[n], n, leaves);
    }
  }

  /** The next chunk on a tree hashes right if and only if no inner counter was within two of the largest integer. */
  lemma ReusableUnlessOverflown(c: Chunk, before: seq<Node>, after: seq<Node>)
    requires c.Valid() && EvenTree(before, |c.segments|) && Reused(before, after, |c.segments|)
    requires forall n :: 1 <= n < |c.segments| ==> before[n].state >= 0
    ensures HashesRight(c, after) <==> forall n :: 1 <= n < |c.segments| ==> before[n].state <= INT32_MAX - 2
  {
    ReusedCounters(before, after, |c.segments|);
    ReferenceIffNonNegative(c, after);
    forall n | 1 <= n < |c.segments| ensures after[n].state >= 0 <==> before[n].state <= INT32_MAX - 2 {
      assert EvenNode(before[n], n, |c.segments|);
    }
  }

  const LIFETIME := 0x4000_0000

  ghost predicate Uses(trees: seq<seq<Node>>, leaves: nat) {
    forall i :: 0 <= i < |trees| - 1 ==> Reused(trees[i], trees[i + 1], leaves)
  }

  lemma {:induction false} CountersAfter(trees: seq<seq<Node>>, leaves: nat, i: nat)
    requires leaves >= 1 && i < |trees| && i <= LIFETIME && Uses(trees, leaves)
    requires |trees[0]| == 2 * leaves && EvenTree(trees[0], leaves)
    requires forall n :: 1 <= n < leaves ==> trees[0][n].state == 0
    ensures |trees[i]| == 2 * leaves && EvenTree(trees[i], leaves)
    ensures forall n :: 1 <= n < leaves ==> trees[i][n].state == if i == LIFETIME then INT32_MIN else 2 * i
  {
    if i > 0 {
      CountersAfter(trees, leaves, i - 1);
      assert Reused(trees[i - 1], trees[i - 1 + 1], leaves);
      ReusedCounters(trees[i - 1], trees[i], leaves);
    }
  }

  /** A new tree hashes 2^30 full chunks right; some schedule of the next one goes wrong. */
  lemma {:induction false} TreeLifetime(c: Chunk, trees: seq<seq<Node>>, i: nat)
    requires c.Valid() && Uses(trees, |c.segments|) && i < |trees| && i <= LIFETIME
    requires |trees[0]| == 2 * |c.segments| && EvenTree(trees[0], |c.segments|)
    requires forall n :: 1 <= n < |c.segments| ==> trees[0][n].state == 0
    ensures HashesRight(c, trees[i]) <==> i < LIFETIME
  {
    CountersAfter(trees, |c.segments|, i);
    ReferenceIffNonNegative(c, trees[i]);
    Pow2Monotone(1, c.depth);
    assert 1 < |c.segments| && trees[i][1].state == if i == LIFETIME then INT32_MIN else 2 * i;
  }

  /** Two leaves over a root whose counter has overflowed: the caller receives a hash without the second segment. */
  lemma {:induction false} OverflownRun(h: BaseHash, size: nat, a: Bytes, b: Bytes, node: Node)
    returns (c: Chunk, before: seq<Node>, run: seq<Machine>)
    requires size >= 1 && |a| == |b| == 2 * size
    ensures c == Chunk(h, size, 1, [a, b]) && c.Valid() && |before| == 4
    ensures EvenTree(before, 2) && before[1].state == INT32_MIN
    ensures IsRun(c, before, run) && Last(run).caller == Received(h(h(a) + []))
    ensures Value(c, 1) == h(h(a) + h(b))
  {
    c := Chunk(h, size, 1, [a, b]);
    assert Pow2(0) == 1 && Pow2(1) == 2;
    var leaf := Node([], [], 0, false, false);
    before := [node, Node([], [], INT32_MIN, false, true), leaf, leaf];
    var m, step := LaunchTwo(c, before, a, b);
    run := step;
    m, step := OneStep(c, m, 0);
    run := Join(c, run, step);
    m, step := ClimbAlone(c, m, h(a));
    run := Join(c, run, step);
  }

  lemma {:induction false} LaunchTwo(c: Chunk, before: seq<Node>, a: Bytes, b: Bytes)
    returns (m: Machine, run: seq<Machine>)
    requires c.Valid() && c.depth == 1 && c.segments == [a, b]
    requires |before| == 4 && EvenTree(before, 2) && before[1].right == []
    ensures Path(c, run) && run[0] == Start(before, Pow2(c.depth)) && Last(run) == m && InRange(c, m)
    ensures m == Machine(before, [Digest(1, a), Digest(0, b)], Waiting)
  {
    var step;
    assert Pow2(0) == 1 && Pow2(1) == 2 && Start(before, 2).routines == [Idle, Idle];
    m, run := CallerSteps(c, Start(before, 2));
    assert m.routines == [Digest(1, a), Idle];
    m, step := CallerSteps(c, m);
    run := Join(c, run, step);
    LevelOf(0, 0);
    assert EvenNode(before[1], 1, 2);
    m, step := CallerSteps(c, m);
    run := Join(c, run, step);
    assert m.nodes == before;
    m, step := CallerSteps(c, m);
    run := Join(c, run, step);
  }

  /** The first goroutine climbs through an overflown root and delivers. */
  lemma ClimbAlone(c: Chunk, m: Machine, s: Bytes) returns (m': Machine, run: seq<Machine>)
    requires InRange(c, m) && c.depth == 1 && m.caller == Waiting && |m.routines| == 2 && |m.nodes| == 4
    requires m.routines[0].Store? && m.routines[0].n == 1 && m.routines[0].isLeft && m.routines[0].s == s
    requires m.nodes[1] == Node([], [], INT32_MIN, false, true)
    ensures Path(c, run) && run[0] == m && Last(run) == m' && m'.caller == Received(c.h(s + []))
  {
    var step;
    m', run := Arrive(c, m, 0);
    var s';
    m', step, s' := Pass(c, m', 0);
    run := Join(c, run, step);
    m', step := OneStep(c, m', 0);
    run := Join(c, run, step);
  }
}
