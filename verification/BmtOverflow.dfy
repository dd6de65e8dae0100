// What becomes of a tree whose 32-bit toggle counters have overflowed. A schedule is built in which a node with a
// negative counter lets its first arrival pass, and with it a hash that misses half of the node's segments.
module BmtOverflow {
  import opened Powers
  import opened BmtReference
  import opened Bmt
  import opened BmtSchedules

  const INT32_MIN := -0x8000_0000

  /** A tree between chunks, its counters even but of either sign; leaves are never toggled. */
  predicate EvenTree(nodes: seq<Node>, leaves: nat) {
    forall n :: 1 <= n < |nodes| ==> EvenNode(nodes[n], n, leaves)
  }

  predicate EvenNode(node: Node, n: nat, leaves: nat) {
    && INT32_MIN <= node.state <= INT32_MAX && node.state % 2 == 0 && (n >= leaves ==> node.state >= 0)
    && !node.unbalanced && node.root == (n == 1)
  }

  // ---------------------------------------------------------------- pieces of schedules

  ghost predicate Path(c: Chunk, run: seq<Machine>) {
    |run| >= 1 && forall i :: 0 <= i < |run| - 1 ==> Step(c, run[i], run[i + 1])
  }

  function Last(run: seq<Machine>): Machine
    requires |run| >= 1
  {
    run[|run| - 1]
  }

  /** One schedule after another. */
  lemma Join(c: Chunk, a: seq<Machine>, b: seq<Machine>) returns (run: seq<Machine>)
    requires Path(c, a) && Path(c, b) && Last(a) == b[0]
    ensures Path(c, run) && run[0] == a[0] && Last(run) == Last(b)
  {
    run := a + b[1..];
    forall i | 0 <= i < |run| - 1 ensures Step(c, run[i], run[i + 1]) {
      if i < |a| - 1 {
        assert run[i] == a[i] && run[i + 1] == a[i + 1];
      } else {
        var j := i - (|a| - 1);
        assert run[i] == b[j] && run[i + 1] == b[j + 1];
      }
    }
  }

  lemma OneStep(c: Chunk, m: Machine, t: nat) returns (m': Machine, run: seq<Machine>)
    requires InRange(c, m) && t < |m.routines| && StepRoutine(c, m, t).Some?
    ensures m' == StepRoutine(c, m, t).value && Path(c, run) && run[0] == m && Last(run) == m'
  {
    m' := StepRoutine(c, m, t).value;
    run := [m, m'];
    assert Step(c, run[0], run[1]);
  }

  lemma {:induction false} CallerSteps(c: Chunk, m: Machine) returns (m': Machine, run: seq<Machine>)
    requires InRange(c, m) && StepCaller(c, m).Some?
    ensures m' == StepCaller(c, m).value && Path(c, run) && run[0] == m && Last(run) == m'
  {
    m' := StepCaller(c, m).value;
    run := [m, m'];
    assert Step(c, run[0], run[1]);
  }

  /** Goroutine t stores its hash and toggles: an odd positive counter makes it exit, any other lets it pass. */
  lemma {:induction false} Arrive(c: Chunk, m: Machine, t: nat) returns (m': Machine, run: seq<Machine>)
    requires InRange(c, m) && t < |m.routines| && m.routines[t].Store? && !m.nodes[m.routines[t].n].unbalanced
    ensures Path(c, run) && run[0] == m && Last(run) == m' && InRange(c, m') && m'.caller == m.caller
    ensures var r := m.routines[t]; var node := m.nodes[r.n]; var state := Inc32(node.state);
      && m'.nodes == m.nodes[r.n := (if r.isLeft then node.(left := r.s) else node.(right := r.s)).(state := state)]
      && m'.routines == m.routines[t := if GoMod2(state) == 1 then Exited else Combine(r.n, r.i, r.d, r.isLeft)]
  {
    var m1, run1 := OneStep(c, m, t);
    assert InRange(c, m1);
    var run2;
    m', run2 := OneStep(c, m1, t);
    run := Join(c, run1, run2);
  }

  /** Goroutine t carries hash s just past node x. */
  predicate Carries(m: Machine, t: nat, x: nat, s: Bytes) {
    && t < |m.routines|
    && if x == 1 then m.routines[t] == Deliver(s)
       else var r := m.routines[t]; r.Store? && r.n == x / 2 && r.isLeft == IsLeft(x) && r.s == s
  }

  /** A goroutine that passes a node carries the hash of what the node holds. */
  lemma Pass(c: Chunk, m: Machine, t: nat) returns (m': Machine, run: seq<Machine>, s: Bytes)
    requires InRange(c, m) && t < |m.routines| && m.routines[t].Combine?
    requires var n := m.routines[t].n; !m.nodes[n].unbalanced && m.nodes[n].root == (n == 1)
    ensures Path(c, run) && run[0] == m && Last(run) == m' && InRange(c, m') && m'.caller == m.caller
    ensures var n := m.routines[t].n;
      s == c.h(m.nodes[n].left + m.nodes[n].right) && Carries(m', t, n, s) && m'.nodes == m.nodes
    ensures |m'.routines| == |m.routines|
    ensures forall u :: 0 <= u < |m.routines| && u != t ==> m'.routines[u] == m.routines[u]
  {
    var n := m.routines[t].n;
    s := c.h(m.nodes[n].left + m.nodes[n].right);
    m', run := OneStep(c, m, t);
  }

  // ---------------------------------------------------------------- sub-trees

  /** Node n is x or lies below it. */
  predicate Under(n: nat, x: nat) {
    n >= x >= 1 && (n == x || Under(n / 2, x))
  }

  lemma {:induction false} UnderChild(n: nat, x: nat)
    requires x >= 1
    ensures Under(n, 2 * x) || Under(n, 2 * x + 1) ==> Under(n, x) && n != x
    ensures !(Under(n, 2 * x) && Under(n, 2 * x + 1))
  {
    if n > 2 * x + 1 {
      UnderChild(n / 2, x);
    }
  }

  /** Only what lies under x has changed. */
  ghost predicate OnlyUnder(m: Machine, m': Machine, x: nat) {
    && |m'.nodes| == |m.nodes| && |m'.routines| == |m.routines| && m'.caller == m.caller
    && (forall n :: 0 <= n < |m.nodes| && !Under(n, x) ==> m'.nodes[n] == m.nodes[n])
    && (forall t :: 0 <= t < |m.routines| && !Under(|m.routines| + t, x) ==> m'.routines[t] == m.routines[t])
  }

  /** A node not yet reached: even counter, and leftovers shorter than k. */
  predicate Untouched(m: Machine, n: nat, k: nat)
    requires n < |m.nodes|
  {
    EvenNode(m.nodes[n], n, |m.routines|) && |m.nodes[n].left| < k && |m.nodes[n].right| < k
  }

  predicate Waits(c: Chunk, m: Machine, t: nat)
    requires t < |m.routines| == |c.segments|
  {
    m.routines[t].Digest? && m.routines[t].s == c.segments[t]
  }

  /** Nothing under x has been reached and all its leaves wait. */
  ghost predicate Ready(c: Chunk, m: Machine, x: nat, k: nat)
    requires |m.routines| == |c.segments|
  {
    && (forall n :: 1 <= n < |m.nodes| && Under(n, x) ==> Untouched(m, n, k))
    && (forall t :: 0 <= t < |m.routines| && Under(|m.routines| + t, x) ==> Waits(c, m, t))
  }

  /** The base hash lengthens its input by k. */
  ghost predicate Pads(h: BaseHash, k: nat) {
    k >= 1 && forall s :: |h(s)| == |s| + k
  }

  /** The length of the hash that belongs at node n, if hashing adds k. */
  function Full(size: nat, leaves: nat, k: nat, n: nat): (length: nat)
    requires 1 <= n < 2 * leaves
    ensures length >= k
    decreases 2 * leaves - n
  {
    if n >= leaves then 2 * size + k else Full(size, leaves, k, 2 * n) + Full(size, leaves, k, 2 * n + 1) + k
  }

  lemma {:induction false} FullIsLength(c: Chunk, n: nat, k: nat)
    requires c.Valid() && 1 <= n < 2 * |c.segments| && Pads(c.h, k)
    ensures |Value(c, n)| == Full(c.size, |c.segments|, k, n)
    decreases 2 * |c.segments| - n
  {
    if n < |c.segments| {
      FullIsLength(c, 2 * n, k);
      FullIsLength(c, 2 * n + 1, k);
    }
  }

  ghost predicate Running(c: Chunk, m: Machine, k: nat) {
    c.Valid() && Pads(c.h, k) && InRange(c, m) && m.caller.Waiting?
  }

  /** A schedule that leads from m to m', touches only what is under x, and has goroutine t carry s past x. */
  ghost predicate Brings(c: Chunk, m: Machine, m': Machine, run: seq<Machine>, x: nat, t: nat, s: Bytes) {
    && Leads(c, m, m', run, x)
    && t < |c.segments| && Under(|c.segments| + t, x) && Carries(m', t, x, s)
  }

  ghost predicate Leads(c: Chunk, m: Machine, m': Machine, run: seq<Machine>, x: nat) {
    Path(c, run) && run[0] == m && Last(run) == m' && InRange(c, m') && OnlyUnder(m, m', x)
  }

  /** A schedule under p or one of its children, then one under p. */
  lemma ThenLeads(c: Chunk, m: Machine, m1: Machine, m': Machine, run1: seq<Machine>, run2: seq<Machine>, y: nat,
                  p: nat)
    returns (run: seq<Machine>)
    requires p >= 1 && (y == 2 * p || y == 2 * p + 1 || y == p) && Leads(c, m, m1, run1, y) && Leads(c, m1, m', run2, p)
    ensures Leads(c, m, m', run, p)
  {
    run := Join(c, run1, run2);
    OnlyUnderBoth(m, m1, m', y, p);
  }

  lemma {:induction false} RunLeaf(c: Chunk, m: Machine, x: nat, k: nat)
    returns (m': Machine, run: seq<Machine>, t: nat, s: Bytes)
    requires Running(c, m, k) && |c.segments| <= x < 2 * |c.segments| && Ready(c, m, x, k)
    ensures Brings(c, m, m', run, x, t, s) && |s| <= Full(c.size, |c.segments|, k, x)
  {
    t := x - |c.segments|;
    assert Under(|c.segments| + t, x) && Waits(c, m, t) && Untouched(m, x, k);
    s := c.h(c.segments[t]);
    m', run := OneStep(c, m, t);
    assert |c.segments| == 2 * Pow2(c.depth - 1);
  }

  /** A sub-tree whose leaves run one after another lets some hash pass, no longer than the right one. */
  lemma {:induction false} RunSubtree(c: Chunk, m: Machine, x: nat, k: nat)
    returns (m': Machine, run: seq<Machine>, t: nat, s: Bytes)
    requires Running(c, m, k) && 1 <= x < 2 * |c.segments| && Ready(c, m, x, k)
    ensures Brings(c, m, m', run, x, t, s) && |s| <= Full(c.size, |c.segments|, k, x)
    decreases 2 * |c.segments| - x, 2
  {
    if x >= |c.segments| {
      m', run, t, s := RunLeaf(c, m, x, k);
    } else {
      assert Under(x, x) && Untouched(m, x, k);
      ReadyChild(c, m, 2 * x, x, k);
      ReadyChild(c, m, 2 * x + 1, x, k);
      var m1, run1, t1, s1 := RunSubtree(c, m, 2 * x, k);
      StillReady(c, m, m1, 2 * x, 2 * x + 1, x, k);
      var run2;
      m', run2, t, s := Meet(c, m1, x, 2 * x, 2 * x + 1, t1, s1, k, false);
      run := ThenLeads(c, m, m1, m', run1, run2, 2 * x, x);
    }
  }

  lemma ReadyChild(c: Chunk, m: Machine, y: nat, x: nat, k: nat)
    requires |m.routines| == |c.segments| && Ready(c, m, x, k) && x >= 1 && (y == 2 * x || y == 2 * x + 1)
    ensures Ready(c, m, y, k)
  {
    forall n | 1 <= n < |m.nodes| && Under(n, y) ensures Untouched(m, n, k) {
      UnderChild(n, x);
    }
    forall t | 0 <= t < |m.routines| && Under(|m.routines| + t, y) ensures Waits(c, m, t) {
      UnderChild(|m.routines| + t, x);
    }
  }

  predicate Siblings(p: nat, y: nat, z: nat) {
    p >= 1 && ((y == 2 * p && z == 2 * p + 1) || (y == 2 * p + 1 && z == 2 * p))
  }

  /** What happens under one child leaves the other child and the parent as they are. */
  lemma StillReady(c: Chunk, m: Machine, m': Machine, y: nat, z: nat, p: nat, k: nat)
    requires Siblings(p, y, z) && p < |m.nodes| && |m.routines| == |c.segments|
    requires OnlyUnder(m, m', y) && Ready(c, m, z, k)
    ensures Ready(c, m', z, k) && m'.nodes[p] == m.nodes[p]
  {
    UnderChild(p, p);
    forall n | 1 <= n < |m'.nodes| && Under(n, z) ensures Untouched(m', n, k) {
      UnderChild(n, p);
      assert Untouched(m, n, k);
    }
    forall t | 0 <= t < |m'.routines| && Under(|m'.routines| + t, z) ensures Waits(c, m', t) {
      UnderChild(|m.routines| + t, p);
      assert Waits(c, m, t);
    }
  }

  /** Changes under a child, then under its parent, are changes under the parent. */
  lemma OnlyUnderBoth(m: Machine, m1: Machine, m': Machine, y: nat, p: nat)
    requires p >= 1 && (y == 2 * p || y == 2 * p + 1 || y == p) && OnlyUnder(m, m1, y) && OnlyUnder(m1, m', p)
    ensures OnlyUnder(m, m', p)
  {
    forall n | 0 <= n < |m.nodes| && !Under(n, p) ensures m'.nodes[n] == m.nodes[n] {
      UnderChild(n, p);
    }
    forall t | 0 <= t < |m.routines| && !Under(|m.routines| + t, p) ensures m'.routines[t] == m.routines[t] {
      UnderChild(|m.routines| + t, p);
    }
  }

  /**
   * Goroutine t has arrived at p from its child y, with a hash no longer than the right one, strictly so if `short`.
   */
  ghost predicate AtMeeting(c: Chunk, m: Machine, p: nat, y: nat, t: nat, s: Bytes, k: nat, short: bool)
    requires 1 <= y < 2 * |c.segments|
  {
    && 1 <= p < |m.nodes| && t < |c.segments| == |m.routines| && Under(|c.segments| + t, y) && Carries(m, t, y, s)
    && |s| <= Full(c.size, |c.segments|, k, y) && (short ==> |s| < Full(c.size, |c.segments|, k, y))
  }

  /** The half of a node that the other child fills. */
  function OtherHalf(node: Node, y: nat): Bytes {
    if IsLeft(y) then node.right else node.left
  }

  /** An arrival that the counter lets pass: it carries on with its own hash and what the other half holds. */
  lemma {:induction false} GoThrough(c: Chunk, m: Machine, p: nat, y: nat, t: nat, s: Bytes, k: nat)
    returns (m': Machine, run: seq<Machine>, s': Bytes)
    requires Running(c, m, k) && 1 <= p < |c.segments| && (y == 2 * p || y == 2 * p + 1)
    requires t < |c.segments| && Under(|c.segments| + t, p) && Carries(m, t, y, s)
    requires var node := m.nodes[p]; !node.unbalanced && node.root == (p == 1) && GoMod2(Inc32(node.state)) != 1
    ensures Brings(c, m, m', run, p, t, s') && |s'| == |s| + |OtherHalf(m.nodes[p], y)| + k
  {
    var m1, run1 := Arrive(c, m, t);
    var run2;
    m', run2, s' := Pass(c, m1, t);
    run := Join(c, run1, run2);
    ChangedAt(m, m', p, t, p);
  }

  /**
   * The meeting at p of the hash from one child with that of the other: the hash that passes p is no longer than the
   * right one, and strictly shorter if the arriving one was or if the counter is negative.
   */
  lemma {:induction false} Meet(c: Chunk, m: Machine, p: nat, y: nat, z: nat, t: nat, s: Bytes, k: nat, short: bool)
    returns (m': Machine, run: seq<Machine>, t': nat, s': Bytes)
    requires Running(c, m, k) && Siblings(p, y, z) && p < |c.segments| && AtMeeting(c, m, p, y, t, s, k, short)
    requires Untouched(m, p, k) && Ready(c, m, z, k)
    ensures Brings(c, m, m', run, p, t', s') && |s'| <= Full(c.size, |c.segments|, k, p)
    ensures short || m.nodes[p].state < 0 ==> |s'| < Full(c.size, |c.segments|, k, p)
    decreases 2 * |c.segments| - p, 1
  {
    UnderChild(|c.segments| + t, p);
    if GoMod2(Inc32(m.nodes[p].state)) != 1 {
      t' := t;
      m', run, s' := GoThrough(c, m, p, y, t, s, k);
    } else {
      m', run, t', s' := MeetSecond(c, m, p, y, z, t, s, k);
    }
  }

  /** The first arrival exits at p: the other child's hash follows and passes. */
  lemma {:induction false} MeetSecond(c: Chunk, m: Machine, p: nat, y: nat, z: nat, t: nat, s: Bytes, k: nat)
    returns (m': Machine, run: seq<Machine>, t': nat, s': Bytes)
    requires Running(c, m, k) && Siblings(p, y, z) && p < |c.segments|
    requires t < |c.segments| && Under(|c.segments| + t, y) && Carries(m, t, y, s)
    requires Untouched(m, p, k) && Ready(c, m, z, k) && GoMod2(Inc32(m.nodes[p].state)) == 1
    ensures Brings(c, m, m', run, p, t', s')
    ensures |s'| <= |s| + Full(c.size, |c.segments|, k, z) + k
    decreases 2 * |c.segments| - p, 0
  {
    var m1, run1 := FirstExits(c, m, p, y, z, t, s, k);
    var m2, run2, s2;
    m2, run2, t', s2 := RunSubtree(c, m1, z, k);
    SecondFinds(m1, m2, p, z, |c.segments| + t');
    var run3;
    m', run3, s' := GoThrough(c, m2, p, z, t', s2, k);
    run3 := ThenLeads(c, m1, m2, m', run2, run3, z, p);
    run := ThenLeads(c, m, m1, m', run1, run3, p, p);
  }

  /** What the second arrival finds at p is what the first left there. */
  lemma {:induction false} SecondFinds(m1: Machine, m2: Machine, p: nat, z: nat, leaf: nat)
    requires p >= 1 && (z == 2 * p || z == 2 * p + 1) && p < |m1.nodes| && OnlyUnder(m1, m2, z) && Under(leaf, z)
    ensures m2.nodes[p] == m1.nodes[p] && Under(leaf, p)
  {
    UnderChild(p, p);
    UnderChild(leaf, p);
  }

  /** The first arrival leaves its hash in p, an odd counter, and the other child as it was. */
  lemma {:induction false} FirstExits(c: Chunk, m: Machine, p: nat, y: nat, z: nat, t: nat, s: Bytes, k: nat)
    returns (m1: Machine, run: seq<Machine>)
    requires Running(c, m, k) && Siblings(p, y, z) && p < |c.segments|
    requires t < |c.segments| && Under(|c.segments| + t, y) && Carries(m, t, y, s)
    requires Untouched(m, p, k) && Ready(c, m, z, k) && GoMod2(Inc32(m.nodes[p].state)) == 1
    ensures Leads(c, m, m1, run, p) && Ready(c, m1, z, k)
    ensures var node := m1.nodes[p]; !node.unbalanced && node.root == (p == 1) && GoMod2(Inc32(node.state)) != 1
    ensures OtherHalf(m1.nodes[p], z) == s
  {
    m1, run := Arrive(c, m, t);
    UnderChild(|c.segments| + t, p);
    ChangedAt(m, m1, p, t, p);
    OtherReady(c, m, m1, p, y, z, t, k);
  }

  /** A change of one node and one goroutine is a change under p if both are. */
  lemma ChangedAt(m: Machine, m': Machine, n: nat, t: nat, p: nat)
    requires |m'.nodes| == |m.nodes| && |m'.routines| == |m.routines| && m'.caller == m.caller
    requires p >= 1 && n == p && Under(|m.routines| + t, p)
    requires forall j :: 0 <= j < |m.nodes| && j != n ==> m'.nodes[j] == m.nodes[j]
    requires forall u :: 0 <= u < |m.routines| && u != t ==> m'.routines[u] == m.routines[u]
    ensures OnlyUnder(m, m', p)
  {
    assert Under(p, p);
  }

  lemma OtherReady(c: Chunk, m: Machine, m1: Machine, p: nat, y: nat, z: nat, t: nat, k: nat)
    requires Siblings(p, y, z) && p < |m.nodes| == |m1.nodes| && |m.routines| == |c.segments| == |m1.routines|
    requires Under(|c.segments| + t, y) && t < |c.segments| && Ready(c, m, z, k)
    requires forall n :: 0 <= n < |m.nodes| && n != p ==> m1.nodes[n] == m.nodes[n]
    requires forall u :: 0 <= u < |m.routines| && u != t ==> m1.routines[u] == m.routines[u]
    ensures Ready(c, m1, z, k)
  {
    forall n | 1 <= n < |m1.nodes| && Under(n, z) ensures Untouched(m1, n, k) {
      UnderChild(n, p);
      assert Untouched(m, n, k);
    }
    forall u | 0 <= u < |m1.routines| && Under(|m1.routines| + u, z) ensures Waits(c, m1, u) {
      UnderChild(|m.routines| + u, p);
      assert Waits(c, m, u);
    }
  }

  // ---------------------------------------------------------------- up to the root

  /** Nothing outside the sub-tree of y has been reached. */
  ghost predicate ReadyOutside(c: Chunk, m: Machine, y: nat, k: nat)
    requires |m.routines| == |c.segments|
  {
    && (forall n :: 1 <= n < |m.nodes| && !Under(n, y) ==> Untouched(m, n, k))
    && (forall t :: 0 <= t < |m.routines| && !Under(|m.routines| + t, y) ==> Waits(c, m, t))
  }

  lemma OutsideSibling(c: Chunk, m: Machine, p: nat, y: nat, z: nat, k: nat)
    requires |m.routines| == |c.segments| && Siblings(p, y, z) && p < |m.nodes| && ReadyOutside(c, m, y, k)
    ensures Ready(c, m, z, k) && Untouched(m, p, k)
  {
    UnderChild(p, p);
    forall n | 1 <= n < |m.nodes| && Under(n, z) ensures Untouched(m, n, k) {
      UnderChild(n, p);
    }
    forall t | 0 <= t < |m.routines| && Under(|m.routines| + t, z) ensures Waits(c, m, t) {
      UnderChild(|m.routines| + t, p);
    }
  }

  lemma OutsideUp(c: Chunk, m: Machine, m': Machine, p: nat, y: nat, k: nat)
    requires |m.routines| == |c.segments| && p >= 1 && (y == 2 * p || y == 2 * p + 1)
    requires ReadyOutside(c, m, y, k) && OnlyUnder(m, m', p)
    ensures ReadyOutside(c, m', p, k)
  {
    forall n | 1 <= n < |m'.nodes| && !Under(n, p) ensures Untouched(m', n, k) {
      UnderChild(n, p);
      assert Untouched(m, n, k);
    }
    forall t | 0 <= t < |m'.routines| && !Under(|m'.routines| + t, p) ensures Waits(c, m', t) {
      UnderChild(|m.routines| + t, p);
      assert Waits(c, m, t);
    }
  }

  /** A hash that is too short when it leaves y is too short when it reaches the caller. */
  lemma {:induction false} RunUp(c: Chunk, m: Machine, y: nat, t: nat, s: Bytes, k: nat)
    returns (m': Machine, run: seq<Machine>, t': nat, s': Bytes)
    requires Running(c, m, k) && 1 <= y < |c.segments| && t < |c.segments| && Under(|c.segments| + t, y)
    requires Carries(m, t, y, s) && |s| < Full(c.size, |c.segments|, k, y) && ReadyOutside(c, m, y, k)
    ensures Path(c, run) && run[0] == m && Last(run) == m' && Running(c, m', k)
    ensures Carries(m', t', 1, s') && |s'| < Full(c.size, |c.segments|, k, 1)
    decreases y
  {
    if y == 1 {
      m', run, t', s' := m, [m], t, s;
    } else {
      var p, z := y / 2, if y % 2 == 0 then y + 1 else y - 1;
      OutsideSibling(c, m, p, y, z, k);
      var m1, run1, t1, s1 := Meet(c, m, p, y, z, t, s, k, true);
      OutsideUp(c, m, m1, p, y, k);
      var run2;
      m', run2, t', s' := RunUp(c, m1, p, t1, s1, k);
      run := Join(c, run1, run2);
    }
  }

  // ---------------------------------------------------------------- launching

  /** Finalising a full chunk clears the right half of some nodes and changes nothing else. */
  predicate SameButRight(a: Node, b: Node) {
    b == a || b == a.(right := [])
  }

  ghost predicate Launched(c: Chunk, before: seq<Node>, m: Machine, i: nat) {
    && |m.nodes| == |before| && |m.routines| == |c.segments|
    && (forall n :: 0 <= n < |before| ==> SameButRight(before[n], m.nodes[n]))
    && (forall t :: 0 <= t < |m.routines| ==> if t < i then Waits(c, m, t) else m.routines[t].Idle?)
  }

  /** The `Write` loop launches every leaf but the last. */
  lemma {:induction false} LaunchMost(c: Chunk, before: seq<Node>) returns (m: Machine, run: seq<Machine>)
    requires c.Valid() && |before| == 2 * |c.segments|
    ensures Path(c, run) && run[0] == Start(before, Pow2(c.depth)) && Last(run) == m
    ensures m.caller == Launching(|c.segments| - 1) && InRange(c, m) && Launched(c, before, m, |c.segments| - 1)
  {
    m := Start(before, Pow2(c.depth));
    run := [m];
    var i := 0;
    while i < |c.segments| - 1
      invariant i <= |c.segments| - 1 && Path(c, run) && run[0] == Start(before, Pow2(c.depth)) && Last(run) == m
      invariant m.caller == Launching(i) && InRange(c, m) && Launched(c, before, m, i)
    {
      var m1, step := CallerSteps(c, m);
      run := Join(c, run, step);
      m, i := m1, i + 1;
    }
  }

  /** One round of `finalise` on the right edge of a balanced tree. */
  lemma {:induction false} FinaliseOne(c: Chunk, before: seq<Node>, m: Machine, j: nat)
    returns (m': Machine, run: seq<Machine>)
    requires c.Valid() && |before| == 2 * |c.segments| && EvenTree(before, |c.segments|) && InRange(c, m)
    requires 1 <= j <= c.depth && Launched(c, before, m, |c.segments| - 1)
    requires m.caller.Finalising? && m.caller.n + 1 == Pow2(j) && !m.caller.isLeft
    ensures Path(c, run) && run[0] == m && Last(run) == m'
    ensures InRange(c, m') && Launched(c, before, m', |c.segments| - 1)
    ensures if j == 1 then m'.caller.LaunchLast?
      else m'.caller.Finalising? && m'.caller.n + 1 == Pow2(j - 1) && !m'.caller.isLeft
  {
    var n := m.caller.n;
    RightEdge(j);
    Pow2Monotone(1, j);
    Pow2Monotone(j, c.depth);
    assert EvenNode(before[n], n, |c.segments|) && SameButRight(before[n], m.nodes[n]);
    m', run := CallerSteps(c, m);
  }

  /** The caller can launch everything before any goroutine moves. */
  lemma {:induction false} LaunchAll(c: Chunk, before: seq<Node>) returns (m: Machine, run: seq<Machine>)
    requires c.Valid() && |before| == 2 * |c.segments| && EvenTree(before, |c.segments|)
    ensures Path(c, run) && run[0] == Start(before, Pow2(c.depth)) && Last(run) == m
    ensures m.caller.Waiting? && InRange(c, m) && Launched(c, before, m, |c.segments|)
  {
    m, run := LaunchMost(c, before);
    var start := run[0];
    var m1, step := CallerSteps(c, m);
    Pow2Monotone(1, c.depth);
    assert m1.caller.Finalising? && m1.caller.n + 1 == Pow2(c.depth);
    run := Join(c, run, step);
    m := m1;
    var j: nat := c.depth;
    while j > 0
      invariant j <= c.depth && Path(c, run) && run[0] == start && Last(run) == m
      invariant InRange(c, m) && Launched(c, before, m, |c.segments| - 1)
      invariant if j == 0 then m.caller.LaunchLast?
        else m.caller.Finalising? && m.caller.n + 1 == Pow2(j) && !m.caller.isLeft
    {
      m1, step := FinaliseOne(c, before, m, j);
      run := Join(c, run, step);
      m, j := m1, j - 1;
    }
    m1, step := CallerSteps(c, m);
    run := Join(c, run, step);
    m := m1;
  }

  // ---------------------------------------------------------------- the result

  /** A node with a negative counter spoils the result of some schedule. */
  lemma {:induction false} NegativeSpoils(c: Chunk, before: seq<Node>, n: nat, k: nat) returns (run: seq<Machine>)
    requires c.Valid() && |before| == 2 * |c.segments| && EvenTree(before, |c.segments|) && Pads(c.h, k)
    requires forall j :: 0 <= j < |before| ==> |before[j].left| < k && |before[j].right| < k
    requires 1 <= n < |c.segments| && before[n].state < 0
    ensures IsRun(c, before, run) && Last(run).caller.Received? && |Last(run).caller.r| < |Value(c, 1)|
  {
    var m0, run0 := LaunchAll(c, before);
    var m1, run1, t1, s1 := StartAt(c, before, m0, n, k);
    var m2, run2, t2, s2 := RunUp(c, m1, n, t1, s1, k);
    var m3, run3 := OneStep(c, m2, t2);
    run := Join(c, run0, run1);
    run := Join(c, run, run2);
    run := Join(c, run, run3);
    FullIsLength(c, 1, k);
  }

  /** The left half of a node with a negative counter runs and passes it, with nothing else moving. */
  lemma {:induction false} StartAt(c: Chunk, before: seq<Node>, m: Machine, n: nat, k: nat)
    returns (m': Machine, run: seq<Machine>, t: nat, s: Bytes)
    requires Running(c, m, k) && |before| == 2 * |c.segments| && EvenTree(before, |c.segments|)
    requires Launched(c, before, m, |c.segments|)
    requires forall j :: 0 <= j < |before| ==> |before[j].left| < k && |before[j].right| < k
    requires 1 <= n < |c.segments| && before[n].state < 0
    ensures Path(c, run) && run[0] == m && Last(run) == m' && Running(c, m', k)
    ensures t < |c.segments| && Under(|c.segments| + t, n) && Carries(m', t, n, s)
    ensures |s| < Full(c.size, |c.segments|, k, n) && ReadyOutside(c, m', n, k)
  {
    AllReady(c, before, m, 2 * n, k);
    AllReady(c, before, m, 2 * n + 1, k);
    var m1, run1, t1, s1 := RunSubtree(c, m, 2 * n, k);
    StillReady(c, m, m1, 2 * n, 2 * n + 1, n, k);
    var run2;
    m', run2, t, s := Meet(c, m1, n, 2 * n, 2 * n + 1, t1, s1, k, false);
    run := ThenLeads(c, m, m1, m', run1, run2, 2 * n, n);
    OutsideStays(c, m, m', n, k);
  }

  lemma OutsideStays(c: Chunk, m: Machine, m': Machine, n: nat, k: nat)
    requires |m.routines| == |c.segments| && OnlyUnder(m, m', n)
    requires forall j :: 1 <= j < |m.nodes| ==> Untouched(m, j, k)
    requires forall u :: 0 <= u < |m.routines| ==> Waits(c, m, u)
    ensures ReadyOutside(c, m', n, k)
  {
    forall j | 1 <= j < |m'.nodes| && !Under(j, n) ensures Untouched(m', j, k) {
      assert Untouched(m, j, k);
    }
    forall u | 0 <= u < |m'.routines| && !Under(|m'.routines| + u, n) ensures Waits(c, m', u) {
      assert Waits(c, m, u);
    }
  }

  lemma AllReady(c: Chunk, before: seq<Node>, m: Machine, x: nat, k: nat)
    requires Running(c, m, k) && |before| == 2 * |c.segments| && EvenTree(before, |c.segments|)
    requires Launched(c, before, m, |c.segments|)
    requires forall j :: 0 <= j < |before| ==> |before[j].left| < k && |before[j].right| < k
    ensures forall n :: 1 <= n < |m.nodes| ==> Untouched(m, n, k)
    ensures forall u :: 0 <= u < |m.routines| ==> Waits(c, m, u)
    ensures Ready(c, m, x, k)
  {
    forall n | 1 <= n < |m.nodes| ensures Untouched(m, n, k) {
      assert EvenNode(before[n], n, |c.segments|) && SameButRight(before[n], m.nodes[n]);
    }
  }

  function WithHash(c: Chunk, h: BaseHash): Chunk {
    c.(h := h)
  }

  /** Whether a finished run has delivered the reference hash. */
  ghost predicate Delivers(c: Chunk, m: Machine) {
    m.caller.Received? ==>
      Pow2(c.depth) * c.size >= 1 && m.caller.r == RefHash(c.h, 2 * c.size, Flat(c.segments), Pow2(c.depth) * c.size)
  }

  /** On this tree every schedule delivers the reference hash of the chunk, whatever the base hash. */
  ghost predicate HashesRight(c: Chunk, before: seq<Node>) {
    forall h: BaseHash, run :: IsRun(WithHash(c, h), before, run) ==> Delivers(WithHash(c, h), Last(run))
  }

  function Pad(k: nat): BaseHash {
    (s: Bytes) => s + seq(k, _ => 0)
  }

  /** More than the length of anything left over in the tree. */
  function Longest(nodes: seq<Node>): (k: nat)
    ensures k >= 1 && forall n :: 0 <= n < |nodes| ==> |nodes[n].left| < k && |nodes[n].right| < k
  {
    if nodes == [] then 1
    else
      var node := nodes[|nodes| - 1];
      Longest(nodes[..|nodes| - 1]) + |node.left| + |node.right| + 1
  }

  /**
   * Every schedule delivers the reference hash, whatever the base hash, if and only if no inner node's counter is
   * negative.
   */
  lemma ReferenceIffNonNegative(c: Chunk, before: seq<Node>)
    requires c.Valid() && |before| == 2 * |c.segments| && EvenTree(before, |c.segments|)
    ensures HashesRight(c, before) <==> forall n :: 1 <= n < |c.segments| ==> before[n].state >= 0
  {
    if forall n :: 1 <= n < |c.segments| ==> before[n].state >= 0 {
      forall h: BaseHash, run | IsRun(WithHash(c, h), before, run) ensures Delivers(WithHash(c, h), Last(run)) {
        CleanDelivers(c, before, h, run);
      }
    } else {
      var n :| 1 <= n < |c.segments| && before[n].state < 0;
      var k := Longest(before);
      var d := WithHash(c, Pad(k));
      var run := NegativeSpoils(d, before, n, k);
      RootIsRefHash(d);
      assert IsRun(WithHash(c, Pad(k)), before, run) && !Delivers(d, Last(run));
    }
  }

  lemma {:induction false} CleanDelivers(c: Chunk, before: seq<Node>, h: BaseHash, run: seq<Machine>)
    requires c.Valid() && |before| == 2 * |c.segments| && EvenTree(before, |c.segments|)
    requires (forall n :: 1 <= n < |c.segments| ==> before[n].state >= 0) && IsRun(WithHash(c, h), before, run)
    ensures Delivers(WithHash(c, h), Last(run))
  {
    forall n | 1 <= n < |before|
      ensures 0 <= before[n].state <= INT32_MAX && before[n].state % 2 == 0
      ensures !before[n].unbalanced && before[n].root == (n == 1)
    {
      assert EvenNode(before[n], n, |c.segments|);
    }
    EveryScheduleDeliversRefHash(WithHash(c, h), before, run);
  }
}
