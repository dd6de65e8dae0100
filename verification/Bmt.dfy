// The concurrent binary Merkle tree of bmt/bmt.go. Goroutines climb a shared tree and meet
// through an atomic toggle; every schedule is a run of the step relation below.
// Nodes are numbered like a heap: the root is 1, the children of n are 2n and 2n+1.
module Bmt {
  import opened Powers
  import opened BmtReference

  // ---------------------------------------------------------------- tree shape

  /** The position fields `NewNode` fills in; `parent == 0` stands for nil. */
  datatype Position = Position(level: nat, index: nat, initial: bool, isLeft: bool, parent: nat)

  function Level(n: nat): nat
    requires n >= 1
  {
    if n == 1 then 0 else 1 + Level(n / 2)
  }

  /** Whether the node is the left child of its parent (`index % 2 == 0`). */
  predicate IsLeft(n: nat) {
    n <= 1 || n % 2 == 0
  }

  lemma {:induction false} LevelBounds(n: nat)
    requires n >= 1
    ensures Pow2(Level(n)) <= n < 2 * Pow2(Level(n))
  {
    if n > 1 {
      LevelBounds(n / 2);
    }
  }

  lemma {:induction false} LevelOf(l: nat, i: nat)
    requires i < Pow2(l)
    ensures Level(Pow2(l) + i) == l
  {
    if l > 0 {
      assert (Pow2(l) + i) / 2 == Pow2(l - 1) + i / 2;
      LevelOf(l - 1, i / 2);
    }
  }

  /** The `depth` loop: the least depth whose leaves hold `n` segments, two to a leaf. */
  method Depth(n: nat) returns (d: nat)
    ensures n <= Pow2(d + 1)
    ensures d > 0 ==> Pow2(d) < n
  {
    d := 0;
    if n == 0 {
      return;  // Go truncates (0 - 1) / 2 to zero
    }
    var half := (n - 1) / 2;
    var l := half;
    while l > 0
      invariant l * Pow2(d) <= half < (l + 1) * Pow2(d)
      invariant d > 0 ==> Pow2(d - 1) <= half
    {
      HalveQuotient(l, Pow2(d), half);
      d := d + 1;
      l := l / 2;
    }
  }

  lemma HalveQuotient(l: nat, p: nat, half: nat)
    requires l >= 1 && l * p <= half < (l + 1) * p
    ensures (l / 2) * (2 * p) <= half < (l / 2 + 1) * (2 * p)
    ensures p <= half
  {
    var q := l / 2;
    assert l == 2 * q || l == 2 * q + 1;
    assert (2 * q) * p == q * (2 * p);
    assert (2 * q + 1) * p == q * (2 * p) + p;
    assert (2 * q + 2) * p == (q + 1) * (2 * p);
    assert (l - 1) * p >= 0 && (l - 1) * p == l * p - p;
  }

  function PositionOf(n: nat): Position
    requires n >= 1
  {
    LevelBounds(n);
    var l := Level(n);
    Position(l, n - Pow2(l), n == Pow2(l), IsLeft(n), n / 2)
  }

  function NewNode(level: nat, index: nat, parent: nat): Position {
    Position(level, index, index == 0, index % 2 == 0, parent)
  }

  /** `NewTree` creates nodes level by level, so creation order is heap order. */
  method NewTree(segmentCount: nat) returns (nodes: seq<Position>, leaves: seq<nat>, d: nat)
    ensures segmentCount <= Pow2(d + 1) && (d > 0 ==> Pow2(d) < segmentCount)
    ensures |nodes| == 2 * Pow2(d)
    ensures forall n :: 1 <= n < |nodes| ==> nodes[n] == PositionOf(n)
    ensures |leaves| == Pow2(d) && forall i :: 0 <= i < |leaves| ==> leaves[i] == Pow2(d) + i
  {
    d := Depth(segmentCount);
    var root := NewNode(0, 0, 0);
    nodes := [root, root];  // entry 0 is never used
    leaves := [1];
    var level, count := 1, 2;
    while level <= d
      invariant 1 <= level <= d + 1 && count == Pow2(level)
      invariant |nodes| == Pow2(level)
      invariant forall n :: 1 <= n < |nodes| ==> nodes[n] == PositionOf(n)
      invariant |leaves| == Pow2(level - 1)
      invariant forall i :: 0 <= i < |leaves| ==> leaves[i] == Pow2(level - 1) + i
    {
      var made: seq<nat> := [];
      var i := 0;
      while i < count
        invariant 0 <= i <= count && |made| == i && |nodes| == count + i
        invariant forall n :: 1 <= n < |nodes| ==> nodes[n] == PositionOf(n)
        invariant forall j :: 0 <= j < i ==> made[j] == count + j
      {
        LevelOf(level, i);
        made := made + [|nodes|];
        nodes := nodes + [NewNode(level, i, leaves[i / 2])];
        i := i + 1;
      }
      leaves := made;
      level := level + 1;
      count := count * 2;
    }
  }

  // ---------------------------------------------------------------- machine

  /** The fields of a node that change while a chunk is hashed. */
  datatype Node = Node(left: Bytes, right: Bytes, state: int, unbalanced: bool, root: bool)

  /** Where one goroutine stands in `writeSegment` and `run`, with its local variables. */
  datatype Routine =
    | Idle
    | Digest(d: nat, s: Bytes)
    | Store(n: nat, i: nat, d: nat, isLeft: bool, s: Bytes)
    | Toggle(n: nat, i: nat, d: nat, isLeft: bool)
    | Combine(n: nat, i: nat, d: nat, isLeft: bool)
    | Deliver(s: Bytes)
    | Exited

  /** Where the calling goroutine stands in `Write` followed by `Sum`. */
  datatype Caller =
    | Launching(i: nat)
    | Finalising(n: nat, isLeft: bool, d: nat)
    | LaunchLast(d: nat)
    | Waiting
    | Received(r: Bytes)

  datatype Machine = Machine(nodes: seq<Node>, routines: seq<Routine>, caller: Caller) {
    function At(t: nat, r: Routine): Machine
      requires t < |routines|
    {
      this.(routines := routines[t := r])
    }
  }

  /** One chunk: base hash, segment size, tree depth, and the double segments handed to the leaves. */
  datatype Chunk = Chunk(h: BaseHash, size: nat, depth: nat, segments: seq<Bytes>) {
    ghost predicate Valid() {
      size >= 1 && depth >= 1 && |segments| == Pow2(depth) &&
      forall i :: 0 <= i < |segments| ==> |segments[i]| == 2 * size
    }
  }

  const INT32_MAX := 0x7fff_ffff

  /** Go's int32 increment. */
  function Inc32(x: int): int {
    if x == INT32_MAX then -0x8000_0000 else x + 1
  }

  /** Go's `x % 2`, which takes the sign of the dividend. */
  function GoMod2(x: int): int {
    if x >= 0 then x % 2 else -((-x) % 2)
  }

  /** `writeSegment`: start a goroutine for leaf i. */
  function Launch(c: Chunk, i: nat, s: Bytes, d: nat): Routine {
    if |s| > c.size && c.depth >= 1 then Digest(d, s)
    else Store(Pow2(c.depth) + i, 2 * i, d, true, s)
  }

  predicate InRange(c: Chunk, m: Machine) {
    |m.nodes| == 2 * Pow2(c.depth) && |m.routines| == Pow2(c.depth) == |c.segments| &&
    (forall t :: 0 <= t < |m.routines| ==>
      var r := m.routines[t];
      (r.Store? || r.Toggle? || r.Combine?) ==> 1 <= r.n < |m.nodes|) &&
    match m.caller
    case Launching(i) => i < |m.routines|
    case Finalising(n, _, _) => 1 <= n < |m.nodes|
    case _ => true
  }

  /** The next step of goroutine t; None when it has none. */
  function StepRoutine(c: Chunk, m: Machine, t: nat): Option<Machine>
    requires InRange(c, m) && t < |m.routines|
  {
    match m.routines[t]
    case Idle => None
    case Exited => None
    case Digest(d, s) =>
      var leaf := Pow2(c.depth) + t;
      Some(m.At(t, if m.nodes[leaf].root then Deliver(c.h(s))
                   else Store(leaf / 2, t, d, t % 2 == 0, c.h(s))))
    case Store(n, i, d, isLeft, s) =>
      var node := if isLeft then m.nodes[n].(left := s) else m.nodes[n].(right := s);
      Some(m.(nodes := m.nodes[n := node]).At(t, Toggle(n, i, d, isLeft)))
    case Toggle(n, i, d, isLeft) =>
      if m.nodes[n].unbalanced then Some(m.At(t, Combine(n, i, d, isLeft)))
      else
        var state := Inc32(m.nodes[n].state);
        Some(m.(nodes := m.nodes[n := m.nodes[n].(state := state)])
              .At(t, if GoMod2(state) == 1 then Exited else Combine(n, i, d, isLeft)))
    case Combine(n, i, d, isLeft) =>
      var node := m.nodes[n];
      var both := node.left + node.right;
      var s := if !node.unbalanced || !isLeft || (i == 0 && d == 0) then c.h(both) else both;
      Some(m.At(t, if node.root then Deliver(s) else Store(n / 2, i + 1, d, IsLeft(n), s)))
    case Deliver(s) =>
      if m.caller.Waiting? then Some(m.(caller := Received(s)).At(t, Exited)) else None
  }

  /** The next step of the caller: the `Write` loop, then `Sum` with its `finalise` loop. */
  function StepCaller(c: Chunk, m: Machine): Option<Machine>
    requires InRange(c, m)
  {
    var last := |m.routines| - 1;
    match m.caller
    case Launching(i) =>
      if i < last then
        Some(m.(caller := Launching(i + 1)).At(i, Launch(c, i, c.segments[i], c.depth)))
      else
        var leaf := Pow2(c.depth) + i;
        Some(m.(caller := if |c.segments[i]| > c.size && i > 0 && leaf > 1
                          then Finalising(leaf / 2, i % 2 == 0, 0) else Finalising(leaf, true, 0)))
    case Finalising(n, isLeft, d) =>
      var node := m.nodes[n].(unbalanced := isLeft, right := []);
      if PositionOf(n).initial then
        Some(m.(nodes := m.nodes[n := node.(root := true)], caller := LaunchLast(d)))
      else
        Some(m.(nodes := m.nodes[n := node], caller := Finalising(n / 2, IsLeft(n), d + 1)))
    case LaunchLast(d) =>
      Some(m.(caller := Waiting).At(last, Launch(c, last, c.segments[last], d)))
    case Waiting => None
    case Received(_) => None
  }

  predicate Step(c: Chunk, m: Machine, m': Machine) {
    InRange(c, m) &&
    (StepCaller(c, m) == Some(m') ||
     exists t :: 0 <= t < |m.routines| && StepRoutine(c, m, t) == Some(m'))
  }

  /** A tree as the pool hands it out; `left` and `right` may hold anything. */
  predicate Clean(nodes: seq<Node>) {
    forall n :: 1 <= n < |nodes| ==>
      0 <= nodes[n].state <= INT32_MAX && nodes[n].state % 2 == 0 && !nodes[n].unbalanced && nodes[n].root == (n == 1)
  }

  function Start(nodes: seq<Node>, leaves: nat): Machine {
    Machine(nodes, seq(leaves, _ => Idle), Launching(0))
  }

  ghost predicate IsRun(c: Chunk, nodes: seq<Node>, run: seq<Machine>) {
    |run| >= 1 && run[0] == Start(nodes, Pow2(c.depth)) &&
    forall i :: 0 <= i < |run| - 1 ==> Step(c, run[i], run[i + 1])
  }
}
