// Every schedule of the concurrent tree delivers the reference hash exactly once.
module BmtSchedules {
  import opened Powers
  import opened BmtReference
  import opened Bmt

  /** The hash that belongs at node n: leaves hash their double segment, inner nodes their children. */
  function Value(c: Chunk, n: nat): Bytes
    requires 1 <= n < 2 * |c.segments|
    decreases 2 * |c.segments| - n
  {
    if n >= |c.segments| then c.h(c.segments[n - |c.segments|])
    else c.h(Value(c, 2 * n) + Value(c, 2 * n + 1))
  }

  /** How far the hash of one node has got on its way to the parent. */
  datatype Slot =
    | Fresh               // some leaf below is still to be hashed or to arrive
    | Held(t: nat)        // goroutine t computes or carries it
    | Stored(t: nat)      // written to the parent, t has still to toggle
    | Arrived             // toggled (for the root: received by the caller)

  /** The child of n whose hash a goroutine at n carries. */
  function Child(n: nat, isLeft: bool): nat {
    if isLeft then 2 * n else 2 * n + 1
  }

  ghost predicate RoutineOk(c: Chunk, m: Machine, slots: seq<Slot>, t: nat)
    requires |slots| == 2 * |c.segments| && t < |m.routines| == |c.segments|
  {
    var leaves := |c.segments|;
    (m.routines[t].Idle? <==> slots[leaves + t].Fresh?) &&
    match m.routines[t]
    case Idle => true
    case Digest(_, s) => s == c.segments[t] && slots[leaves + t] == Held(t)
    case Store(n, _, _, isLeft, s) =>
      1 <= n < leaves && slots[Child(n, isLeft)] == Held(t) && s == Value(c, Child(n, isLeft))
    case Toggle(n, _, _, isLeft) =>
      1 <= n < leaves && slots[Child(n, isLeft)] == Stored(t)
    case Combine(n, _, _, _) => 1 <= n < leaves && slots[n] == Held(t)
    case Deliver(s) => slots[1] == Held(t) && s == Value(c, 1)
    case Exited => true
  }

  /** Goroutine r is the one responsible for slot n. */
  predicate Carries(leaves: nat, r: Routine, t: nat, n: nat) {
    match r
    case Digest(_, _) => n == leaves + t
    case Store(p, _, _, isLeft, _) => n == Child(p, isLeft)
    case Combine(p, _, _, _) => n == p
    case Deliver(_) => n == 1
    case _ => false
  }

  ghost predicate SlotOk(c: Chunk, m: Machine, slots: seq<Slot>, n: nat)
    requires |slots| == 2 * |c.segments| && 1 <= n < |slots| && |m.routines| == |c.segments|
  {
    var leaves := |c.segments|;
    match slots[n]
    case Held(t) => t < leaves && Carries(leaves, m.routines[t], t, n)
    case Stored(t) => t < leaves && m.routines[t].Toggle? && n == Child(m.routines[t].n, m.routines[t].isLeft)
    case _ => true
  }

  function Count(s: Slot): nat {
    if s.Arrived? then 1 else 0
  }

  /** What holds of inner node n: its toggle counts arrivals and its halves are the children's hashes. */
  ghost predicate NodeOk(c: Chunk, before: seq<Node>, m: Machine, slots: seq<Slot>, n: nat)
    requires |before| == |m.nodes| == |slots| == 2 * |c.segments| && 1 <= n < |c.segments|
  {
    var node := m.nodes[n];
    var l, r := slots[2 * n], slots[2 * n + 1];
    && node.state == (if Count(l) + Count(r) == 0 then before[n].state
                      else if Count(l) + Count(r) == 1 then before[n].state + 1
                      else Inc32(before[n].state + 1))
    && (l.Stored? || l.Arrived? ==> node.left == Value(c, 2 * n))
    && (r.Stored? || r.Arrived? ==> node.right == Value(c, 2 * n + 1))
    && (slots[n].Fresh? <==> !(l.Arrived? && r.Arrived?))
  }

  ghost predicate CallerOk(c: Chunk, m: Machine, slots: seq<Slot>)
    requires |slots| == 2 * |c.segments| && |m.routines| == |c.segments| >= 1
  {
    var leaves := |c.segments|;
    (slots[1].Arrived? <==> m.caller.Received?) &&
    match m.caller
    case Launching(i) => i < leaves && forall t :: 0 <= t < leaves ==> (m.routines[t].Idle? <==> t >= i)
    case Finalising(n, isLeft, d) =>
      !isLeft && d < c.depth && n + 1 == Pow2(c.depth - d) &&
      forall t :: 0 <= t < leaves ==> (m.routines[t].Idle? <==> t == leaves - 1)
    case LaunchLast(_) => forall t :: 0 <= t < leaves ==> (m.routines[t].Idle? <==> t == leaves - 1)
    case Waiting => forall t :: 0 <= t < leaves ==> !m.routines[t].Idle?
    case Received(r) => r == Value(c, 1) && forall t :: 0 <= t < leaves ==> !m.routines[t].Idle?
  }

  ghost predicate Inv(c: Chunk, before: seq<Node>, m: Machine, slots: seq<Slot>) {
    && c.Valid()
    && |before| == |m.nodes| == |slots| == 2 * |c.segments| && |m.routines| == |c.segments|
    && Clean(before)
    && (forall n :: 1 <= n < |m.nodes| ==> !m.nodes[n].unbalanced && m.nodes[n].root == (n == 1))
    && (forall n :: |c.segments| <= n < |m.nodes| ==> m.nodes[n].state == before[n].state)
    && (forall t :: 0 <= t < |m.routines| ==> RoutineOk(c, m, slots, t))
    && (forall n :: 1 <= n < |slots| ==> SlotOk(c, m, slots, n))
    && (forall n :: 1 <= n < |c.segments| ==> NodeOk(c, before, m, slots, n))
    && CallerOk(c, m, slots)
  }

  lemma InvInRange(c: Chunk, before: seq<Node>, m: Machine, slots: seq<Slot>)
    requires Inv(c, before, m, slots)
    ensures InRange(c, m)
  {
    forall t | 0 <= t < |m.routines|
      ensures var r := m.routines[t]; (r.Store? || r.Toggle? || r.Combine?) ==> 1 <= r.n < |m.nodes|
    {
      assert RoutineOk(c, m, slots, t);
    }
    if m.caller.Finalising? {
      Pow2Monotone(1, c.depth - m.caller.d);
      Pow2Monotone(c.depth - m.caller.d, c.depth);
    }
  }

  /** A step of goroutine t that leaves slots and nodes alone. */
  lemma {:induction false} OnlyRoutine(c: Chunk, before: seq<Node>, m: Machine, m': Machine, slots: seq<Slot>, t: nat,
                                       r: Routine)
    requires Inv(c, before, m, slots) && t < |m.routines| && m'.nodes == m.nodes && m'.caller == m.caller
    requires m'.routines == m.routines[t := r] && !m.routines[t].Idle? && !r.Idle?
    requires RoutineOk(c, m', slots, t)
    requires forall n :: 1 <= n < |slots| && (slots[n] == Held(t) || slots[n] == Stored(t)) ==> SlotOk(c, m', slots, n)
    ensures Inv(c, before, m', slots)
  {
    RoutinesKeep(c, m, m', slots, t, r);
    SlotsKeep(c, m, m', slots, t, r);
    NodesKeep(c, before, m, m', slots);
  }

  lemma RoutinesKeep(c: Chunk, m: Machine, m': Machine, slots: seq<Slot>, t: nat, r: Routine)
    requires |slots| == 2 * |c.segments| && t < |m.routines| == |c.segments| && m'.routines == m.routines[t := r]
    requires forall u :: 0 <= u < |m.routines| ==> RoutineOk(c, m, slots, u)
    requires RoutineOk(c, m', slots, t)
    ensures forall u :: 0 <= u < |m'.routines| ==> RoutineOk(c, m', slots, u)
  {
    forall u | 0 <= u < |m'.routines| ensures RoutineOk(c, m', slots, u) {
      assert RoutineOk(c, m, slots, u);
    }
  }

  lemma SlotsKeep(c: Chunk, m: Machine, m': Machine, slots: seq<Slot>, t: nat, r: Routine)
    requires |slots| == 2 * |c.segments| && t < |m.routines| == |c.segments| && m'.routines == m.routines[t := r]
    requires forall n :: 1 <= n < |slots| ==> SlotOk(c, m, slots, n)
    requires forall n :: 1 <= n < |slots| && (slots[n] == Held(t) || slots[n] == Stored(t)) ==> SlotOk(c, m', slots, n)
    ensures forall n :: 1 <= n < |slots| ==> SlotOk(c, m', slots, n)
  {
    forall n | 1 <= n < |slots| ensures SlotOk(c, m', slots, n) {
      assert SlotOk(c, m, slots, n);
    }
  }

  lemma {:induction false} NodesKeep(c: Chunk, before: seq<Node>, m: Machine, m': Machine, slots: seq<Slot>)
    requires |before| == |m.nodes| == |slots| == 2 * |c.segments| && m'.nodes == m.nodes
    requires forall n :: 1 <= n < |c.segments| ==> NodeOk(c, before, m, slots, n)
    ensures forall n :: 1 <= n < |c.segments| ==> NodeOk(c, before, m', slots, n)
  {
    forall n | 1 <= n < |c.segments| ensures NodeOk(c, before, m', slots, n) {
      assert NodeOk(c, before, m, slots, n);
    }
  }

  /** Hashing a leaf makes its goroutine carry the leaf's value to the parent. */
  lemma {:induction false} DigestResult(c: Chunk, m: Machine, t: nat)
    requires c.Valid() && InRange(c, m) && t < |m.routines| && m.routines[t].Digest? && m.routines[t].s == c.segments[t]
    requires !m.nodes[Pow2(c.depth) + t].root
    ensures StepRoutine(c, m, t).Some?
    ensures var m' := StepRoutine(c, m, t).value;
      && m'.nodes == m.nodes && m'.caller == m.caller && m'.routines == m.routines[t := m'.routines[t]]
      && var r := m'.routines[t];
        && r.Store? && 1 <= r.n < |c.segments| && Child(r.n, r.isLeft) == |c.segments| + t
        && r.s == Value(c, |c.segments| + t)
  {
    assert Pow2(c.depth) == 2 * Pow2(c.depth - 1);
  }

  lemma {:induction false} StepDigest(c: Chunk, before: seq<Node>, m: Machine, slots: seq<Slot>, t: nat)
    requires Inv(c, before, m, slots) && t < |m.routines| && m.routines[t].Digest?
    ensures InRange(c, m) && StepRoutine(c, m, t).Some? && Inv(c, before, StepRoutine(c, m, t).value, slots)
  {
    assert RoutineOk(c, m, slots, t);
    InvInRange(c, before, m, slots);
    Pow2Monotone(1, c.depth);
    DigestResult(c, m, t);
    var m' := StepRoutine(c, m, t).value;
    HeldOnly(c, m, m', slots, t);
    OnlyRoutine(c, before, m, m', slots, t, m'.routines[t]);
  }

  /** The one slot of a goroutine that hashes its leaf is the leaf's, and stays so when it moves on. */
  lemma HeldOnly(c: Chunk, m: Machine, m': Machine, slots: seq<Slot>, t: nat)
    requires |slots| == 2 * |c.segments| && t < |m.routines| == |c.segments| == |m'.routines|
    requires m.routines[t].Digest? && m'.routines[t].Store?
    requires Child(m'.routines[t].n, m'.routines[t].isLeft) == |c.segments| + t
    requires forall n :: 1 <= n < |slots| ==> SlotOk(c, m, slots, n)
    ensures forall n :: 1 <= n < |slots| && (slots[n] == Held(t) || slots[n] == Stored(t)) ==> SlotOk(c, m', slots, n)
  {
    forall n | 1 <= n < |slots| && (slots[n] == Held(t) || slots[n] == Stored(t)) ensures SlotOk(c, m', slots, n) {
      assert SlotOk(c, m, slots, n);
    }
  }

  lemma {:induction false} StoreKeepsNode(c: Chunk, before: seq<Node>, m: Machine, slots: seq<Slot>, t: nat, n: nat)
    requires Inv(c, before, m, slots) && t < |m.routines| && m.routines[t].Store? && InRange(c, m)
    requires 1 <= n < |c.segments|
    ensures var k := Child(m.routines[t].n, m.routines[t].isLeft);
      k < |slots| && NodeOk(c, before, StepRoutine(c, m, t).value, slots[k := Stored(t)], n)
  {
    assert RoutineOk(c, m, slots, t);
    assert NodeOk(c, before, m, slots, n);
    var n0, isLeft := m.routines[t].n, m.routines[t].isLeft;
    var k := Child(n0, isLeft);
    assert n != n0 ==> 2 * n != k && 2 * n + 1 != k;
  }

  lemma StoreKeepsRoutines(c: Chunk, m: Machine, slots: seq<Slot>, t: nat, m': Machine, slots': seq<Slot>, k: nat,
                           r: Routine)
    requires |slots| == 2 * |c.segments| && t < |m.routines| == |c.segments| && 1 <= k < |slots| && slots[k] == Held(t)
    requires forall u :: 0 <= u < |m.routines| ==> RoutineOk(c, m, slots, u)
    requires m'.routines == m.routines[t := r] && slots' == slots[k := Stored(t)] && RoutineOk(c, m', slots', t)
    ensures forall u :: 0 <= u < |m'.routines| ==> RoutineOk(c, m', slots', u)
  {
    forall u | 0 <= u < |m'.routines| ensures RoutineOk(c, m', slots', u) {
      assert RoutineOk(c, m, slots, u);
    }
  }

  lemma StoreKeepsSlots(c: Chunk, m: Machine, slots: seq<Slot>, t: nat, m': Machine, slots': seq<Slot>, k: nat,
                        r: Routine)
    requires |slots| == 2 * |c.segments| && t < |m.routines| == |c.segments| && 1 <= k < |slots|
    requires forall n :: 1 <= n < |slots| ==> SlotOk(c, m, slots, n)
    requires m.routines[t].Store? && k == Child(m.routines[t].n, m.routines[t].isLeft)
    requires r.Toggle? && r.n == m.routines[t].n && r.isLeft == m.routines[t].isLeft
    requires m'.routines == m.routines[t := r] && slots' == slots[k := Stored(t)]
    ensures forall n :: 1 <= n < |slots| ==> SlotOk(c, m', slots', n)
  {
    forall n | 1 <= n < |slots| ensures SlotOk(c, m', slots', n) {
      assert SlotOk(c, m, slots, n);
    }
  }

  lemma {:induction false} StepStore(c: Chunk, before: seq<Node>, m: Machine, slots: seq<Slot>, t: nat)
    returns (slots': seq<Slot>)
    requires Inv(c, before, m, slots) && t < |m.routines| && m.routines[t].Store?
    ensures InRange(c, m) && StepRoutine(c, m, t).Some? && Inv(c, before, StepRoutine(c, m, t).value, slots')
  {
    assert RoutineOk(c, m, slots, t);
    InvInRange(c, before, m, slots);
    var k := Child(m.routines[t].n, m.routines[t].isLeft);
    slots' := slots[k := Stored(t)];
    var m' := StepRoutine(c, m, t).value;
    StoreKeepsRoutines(c, m, slots, t, m', slots', k, m'.routines[t]);
    StoreKeepsSlots(c, m, slots, t, m', slots', k, m'.routines[t]);
    forall n | 1 <= n < |c.segments| ensures NodeOk(c, before, StepRoutine(c, m, t).value, slots', n) {
      StoreKeepsNode(c, before, m, slots, t, n);
    }
  }

  /** The slots after goroutine t toggles: the second arrival takes over the node. */
  function Toggled(slots: seq<Slot>, n: nat, isLeft: bool, t: nat): seq<Slot>
    requires 1 <= n && 2 * n + 1 < |slots|
  {
    var arrived := slots[Child(n, isLeft) := Arrived];
    if slots[Child(n, !isLeft)].Arrived? then arrived[n := Held(t)] else arrived
  }

  lemma {:induction false} ToggleKeepsNode(c: Chunk, before: seq<Node>, m: Machine, slots: seq<Slot>, t: nat, n: nat)
    requires Inv(c, before, m, slots) && t < |m.routines| && m.routines[t].Toggle? && InRange(c, m)
    requires 1 <= n < |c.segments|
    ensures m.routines[t].n < |c.segments|
    ensures NodeOk(c, before, StepRoutine(c, m, t).value, Toggled(slots, m.routines[t].n, m.routines[t].isLeft, t), n)
  {
    assert RoutineOk(c, m, slots, t);
    var n0, isLeft := m.routines[t].n, m.routines[t].isLeft;
    var k := Child(n0, isLeft);
    assert NodeOk(c, before, m, slots, n);
    assert NodeOk(c, before, m, slots, n0);
    assert n != n0 ==> 2 * n != k && 2 * n + 1 != k;
  }

  /** The counter tells the first arrival, which leaves, from the second, which goes on. */
  lemma {:induction false} ToggleDecides(c: Chunk, before: seq<Node>, m: Machine, slots: seq<Slot>, t: nat)
    requires Inv(c, before, m, slots) && t < |m.routines| && m.routines[t].Toggle? && InRange(c, m)
    ensures var r := m.routines[t];
      1 <= r.n < |c.segments| && slots[Child(r.n, r.isLeft)] == Stored(t) &&
      StepRoutine(c, m, t).Some? &&
      var m' := StepRoutine(c, m, t).value;
      m'.caller == m.caller &&
      m'.nodes == m.nodes[r.n := m.nodes[r.n].(state := Inc32(m.nodes[r.n].state))] &&
      var second := slots[Child(r.n, !r.isLeft)].Arrived?;
      m'.routines == m.routines[t := if second then Combine(r.n, r.i, r.d, r.isLeft) else Exited] &&
      slots[r.n].Fresh?
  {
    assert RoutineOk(c, m, slots, t);
    assert NodeOk(c, before, m, slots, m.routines[t].n);
  }

  lemma {:induction false} ToggleKeepsRoutines(c: Chunk, before: seq<Node>, m: Machine, slots: seq<Slot>, t: nat,
                                               m': Machine, slots': seq<Slot>)
    requires Inv(c, before, m, slots) && t < |m.routines| && m.routines[t].Toggle? && InRange(c, m)
    requires StepRoutine(c, m, t) == Some(m') && m.routines[t].n < |c.segments|
    requires slots' == Toggled(slots, m.routines[t].n, m.routines[t].isLeft, t)
    ensures forall u :: 0 <= u < |m.routines| ==> RoutineOk(c, m', slots', u)
  {
    ToggleDecides(c, before, m, slots, t);
    forall u | 0 <= u < |m.routines| ensures RoutineOk(c, m', slots', u) {
      assert RoutineOk(c, m, slots, u);
    }
  }

  lemma {:induction false} ToggleKeepsSlots(c: Chunk, before: seq<Node>, m: Machine, slots: seq<Slot>, t: nat,
                                            m': Machine, slots': seq<Slot>)
    requires Inv(c, before, m, slots) && t < |m.routines| && m.routines[t].Toggle? && InRange(c, m)
    requires StepRoutine(c, m, t) == Some(m') && m.routines[t].n < |c.segments|
    requires slots' == Toggled(slots, m.routines[t].n, m.routines[t].isLeft, t)
    ensures forall n :: 1 <= n < |slots| ==> SlotOk(c, m', slots', n)
  {
    ToggleDecides(c, before, m, slots, t);
    forall n | 1 <= n < |slots| ensures SlotOk(c, m', slots', n) {
      assert SlotOk(c, m, slots, n);
    }
  }

  lemma {:induction false} StepToggle(c: Chunk, before: seq<Node>, m: Machine, slots: seq<Slot>, t: nat)
    returns (slots': seq<Slot>)
    requires Inv(c, before, m, slots) && t < |m.routines| && m.routines[t].Toggle?
    ensures InRange(c, m) && StepRoutine(c, m, t).Some? && Inv(c, before, StepRoutine(c, m, t).value, slots')
  {
    InvInRange(c, before, m, slots);
    ToggleDecides(c, before, m, slots, t);
    slots' := Toggled(slots, m.routines[t].n, m.routines[t].isLeft, t);
    var m' := StepRoutine(c, m, t).value;
    ToggleKeepsRoutines(c, before, m, slots, t, m', slots');
    ToggleKeepsSlots(c, before, m, slots, t, m', slots');
    forall n | 1 <= n < |c.segments| ensures NodeOk(c, before, StepRoutine(c, m, t).value, slots', n) {
      ToggleKeepsNode(c, before, m, slots, t, n);
    }
  }

  lemma {:induction false} StepCombine(c: Chunk, before: seq<Node>, m: Machine, slots: seq<Slot>, t: nat)
    requires Inv(c, before, m, slots) && t < |m.routines| && m.routines[t].Combine?
    ensures InRange(c, m) && StepRoutine(c, m, t).Some? && Inv(c, before, StepRoutine(c, m, t).value, slots)
  {
    assert RoutineOk(c, m, slots, t);
    InvInRange(c, before, m, slots);
    var m' := StepRoutine(c, m, t).value;
    var n0 := m.routines[t].n;
    CombinedValue(c, before, m, slots, n0);
    assert n0 > 1 ==> Child(n0 / 2, IsLeft(n0)) == n0;
    forall n | 1 <= n < |slots| && (slots[n] == Held(t) || slots[n] == Stored(t)) ensures SlotOk(c, m', slots, n) {
      assert SlotOk(c, m, slots, n);
    }
    OnlyRoutine(c, before, m, m', slots, t, m'.routines[t]);
  }

  /** A node whose children have both arrived holds their hashes. */
  lemma {:induction false} CombinedValue(c: Chunk, before: seq<Node>, m: Machine, slots: seq<Slot>, n: nat)
    requires Inv(c, before, m, slots) && 1 <= n < |c.segments| && !slots[n].Fresh?
    ensures c.h(m.nodes[n].left + m.nodes[n].right) == Value(c, n)
  {
    assert NodeOk(c, before, m, slots, n);
  }

  lemma {:induction false} StepDeliver(c: Chunk, before: seq<Node>, m: Machine, slots: seq<Slot>, t: nat)
    returns (slots': seq<Slot>)
    requires Inv(c, before, m, slots) && t < |m.routines| && m.routines[t].Deliver?
    ensures InRange(c, m)
    ensures StepRoutine(c, m, t).Some? ==> Inv(c, before, StepRoutine(c, m, t).value, slots')
  {
    var leaves := |c.segments|;
    assert RoutineOk(c, m, slots, t);
    InvInRange(c, before, m, slots);
    slots' := slots[1 := Arrived];
    if StepRoutine(c, m, t).Some? {
      var m' := StepRoutine(c, m, t).value;
      forall u | 0 <= u < leaves ensures RoutineOk(c, m', slots', u) {
        assert RoutineOk(c, m, slots, u);
      }
      forall n | 1 <= n < |slots| ensures SlotOk(c, m', slots', n) {
        assert SlotOk(c, m, slots, n);
      }
      forall n | 1 <= n < leaves ensures NodeOk(c, before, m', slots', n) {
        assert NodeOk(c, before, m, slots, n);
      }
    }
  }

  /** Until its last leaf is launched, no node on the rightmost path has a hash. */
  lemma {:induction false} RightEdgeFresh(c: Chunk, before: seq<Node>, m: Machine, slots: seq<Slot>, j: nat)
    requires Inv(c, before, m, slots) && m.routines[|m.routines| - 1].Idle?
    requires 1 <= j <= c.depth + 1
    ensures 1 <= Pow2(j) - 1 < |slots| && slots[Pow2(j) - 1].Fresh?
    decreases c.depth + 1 - j
  {
    Pow2Monotone(1, j);
    Pow2Monotone(j, c.depth + 1);
    if j == c.depth + 1 {
      assert RoutineOk(c, m, slots, |m.routines| - 1);
    } else {
      RightEdgeFresh(c, before, m, slots, j + 1);
      Pow2Monotone(j, c.depth);
      assert NodeOk(c, before, m, slots, Pow2(j) - 1);
    }
  }

  /** Launching leaf i moves its slot from fresh to held by goroutine i. */
  ghost predicate Launches(c: Chunk, m: Machine, slots: seq<Slot>, i: nat, m': Machine, slots': seq<Slot>, r: Routine) {
    && |slots| == 2 * |c.segments| && i < |m.routines| == |c.segments| && m.routines[i].Idle?
    && slots[|c.segments| + i].Fresh? && slots' == slots[|c.segments| + i := Held(i)]
    && r.Digest? && r.s == c.segments[i] && m'.routines == m.routines[i := r] && m'.nodes == m.nodes
  }

  lemma LaunchKeepsRoutines(c: Chunk, m: Machine, slots: seq<Slot>, i: nat, m': Machine, slots': seq<Slot>, r: Routine)
    requires Launches(c, m, slots, i, m', slots', r)
    requires forall u :: 0 <= u < |m.routines| ==> RoutineOk(c, m, slots, u)
    ensures forall u :: 0 <= u < |m'.routines| ==> RoutineOk(c, m', slots', u)
  {
    forall u | 0 <= u < |m'.routines| ensures RoutineOk(c, m', slots', u) {
      assert RoutineOk(c, m, slots, u);
    }
  }

  lemma LaunchKeepsSlots(c: Chunk, m: Machine, slots: seq<Slot>, i: nat, m': Machine, slots': seq<Slot>, r: Routine)
    requires Launches(c, m, slots, i, m', slots', r)
    requires forall n :: 1 <= n < |slots| ==> SlotOk(c, m, slots, n)
    ensures forall n :: 1 <= n < |slots| ==> SlotOk(c, m', slots', n)
  {
    forall n | 1 <= n < |slots| ensures SlotOk(c, m', slots', n) {
      assert SlotOk(c, m, slots, n);
    }
  }

  lemma {:induction false} LaunchKeepsNodes(c: Chunk, before: seq<Node>, m: Machine, slots: seq<Slot>, i: nat,
                                            m': Machine, slots': seq<Slot>, r: Routine)
    requires Launches(c, m, slots, i, m', slots', r) && |before| == |m.nodes| == |slots|
    requires forall n :: 1 <= n < |c.segments| ==> NodeOk(c, before, m, slots, n)
    ensures forall n :: 1 <= n < |c.segments| ==> NodeOk(c, before, m', slots', n)
  {
    forall n | 1 <= n < |c.segments| ensures NodeOk(c, before, m', slots', n) {
      assert NodeOk(c, before, m, slots, n);
    }
  }

  lemma {:induction false} StepLaunch(c: Chunk, before: seq<Node>, m: Machine, slots: seq<Slot>, i: nat, m': Machine)
    returns (slots': seq<Slot>)
    requires Inv(c, before, m, slots) && i < |m.routines|
    requires (m.caller == Launching(i) && i < |m.routines| - 1) || (m.caller.LaunchLast? && i == |m.routines| - 1)
    requires InRange(c, m) && StepCaller(c, m) == Some(m')
    ensures Inv(c, before, m', slots')
  {
    slots' := slots[|c.segments| + i := Held(i)];
    assert RoutineOk(c, m, slots, i);
    var r := m'.routines[i];
    LaunchKeepsRoutines(c, m, slots, i, m', slots', r);
    LaunchKeepsSlots(c, m, slots, i, m', slots', r);
    LaunchKeepsNodes(c, before, m, slots, i, m', slots', r);
  }

  lemma {:induction false} StepSum(c: Chunk, before: seq<Node>, m: Machine, slots: seq<Slot>, m': Machine)
    requires Inv(c, before, m, slots) && m.caller == Launching(|m.routines| - 1)
    requires InRange(c, m) && StepCaller(c, m) == Some(m')
    ensures Inv(c, before, m', slots)
  {
    var leaves := |c.segments|;
    assert (2 * leaves - 1) / 2 + 1 == leaves;
    Pow2Monotone(1, c.depth);
    assert m'.caller == Finalising(leaves - 1, false, 0);
    forall u | 0 <= u < leaves ensures RoutineOk(c, m', slots, u) {
      assert RoutineOk(c, m, slots, u);
    }
    forall n | 1 <= n < |slots| ensures SlotOk(c, m', slots, n) {
      assert SlotOk(c, m, slots, n);
    }
    forall n | 1 <= n < leaves ensures NodeOk(c, before, m', slots, n) {
      assert NodeOk(c, before, m, slots, n);
    }
  }

  /** `finalise` walks the right edge: it never meets a node with index zero before the root. */
  lemma {:induction false} FinaliseTarget(c: Chunk, before: seq<Node>, m: Machine, slots: seq<Slot>, m': Machine)
    requires Inv(c, before, m, slots) && m.caller.Finalising?
    requires InRange(c, m) && StepCaller(c, m) == Some(m')
    ensures var n, d := m.caller.n, m.caller.d;
      m'.routines == m.routines && n < |c.segments| && slots[2 * n + 1].Fresh? &&
      m'.nodes == m.nodes[n := m.nodes[n].(right := [])] &&
      (m'.caller.LaunchLast? ||
       (m'.caller == Finalising(n / 2, false, d + 1) && d + 1 < c.depth && n / 2 + 1 == Pow2(c.depth - d - 1)))
  {
    var j := c.depth - m.caller.d;
    RightEdgeFresh(c, before, m, slots, j + 1);
    RightEdge(j);
    Pow2Monotone(j, c.depth);
  }

  /** Nodes of the right edge are first on their level only at the root, and right children below it. */
  lemma RightEdge(j: nat)
    requires j >= 1
    ensures var n := Pow2(j) - 1; n >= 1 && (PositionOf(n).initial <==> j == 1) && 2 * n + 1 == Pow2(j + 1) - 1
    ensures j > 1 ==> var n := Pow2(j) - 1; !IsLeft(n) && n / 2 + 1 == Pow2(j - 1)
  {
    Pow2Monotone(1, j);
    LevelOf(j - 1, Pow2(j - 1) - 1);
    assert Pow2(j) - 1 == Pow2(j - 1) + (Pow2(j - 1) - 1);
    if j > 1 {
      Pow2Monotone(1, j - 1);
    }
  }

  lemma {:induction false} StepFinalise(c: Chunk, before: seq<Node>, m: Machine, slots: seq<Slot>, m': Machine)
    requires Inv(c, before, m, slots) && m.caller.Finalising?
    requires InRange(c, m) && StepCaller(c, m) == Some(m')
    ensures Inv(c, before, m', slots)
  {
    FinaliseTarget(c, before, m, slots, m');
    SameRoutines(c, m, m', slots);
    FinaliseKeepsCaller(c, m, slots, m');
    FinaliseKeepsNodes(c, before, m, slots, m', m.caller.n);
  }

  lemma FinaliseKeepsCaller(c: Chunk, m: Machine, slots: seq<Slot>, m': Machine)
    requires |slots| == 2 * |c.segments| && |m.routines| == |c.segments| >= 1
    requires CallerOk(c, m, slots) && m.caller.Finalising?
    requires m'.routines == m.routines
    requires var n, d := m.caller.n, m.caller.d;
      m'.caller.LaunchLast? ||
      (m'.caller == Finalising(n / 2, false, d + 1) && d + 1 < c.depth && n / 2 + 1 == Pow2(c.depth - d - 1))
    ensures CallerOk(c, m', slots)
  {
  }

  lemma SameRoutines(c: Chunk, m: Machine, m': Machine, slots: seq<Slot>)
    requires |slots| == 2 * |c.segments| && |m.routines| == |c.segments| && m'.routines == m.routines
    requires forall u :: 0 <= u < |m.routines| ==> RoutineOk(c, m, slots, u)
    requires forall n :: 1 <= n < |slots| ==> SlotOk(c, m, slots, n)
    ensures forall u :: 0 <= u < |m'.routines| ==> RoutineOk(c, m', slots, u)
    ensures forall n :: 1 <= n < |slots| ==> SlotOk(c, m', slots, n)
  {
    forall u | 0 <= u < |m'.routines| ensures RoutineOk(c, m', slots, u) {
      assert RoutineOk(c, m, slots, u);
    }
    forall n | 1 <= n < |slots| ensures SlotOk(c, m', slots, n) {
      assert SlotOk(c, m, slots, n);
    }
  }

  lemma {:induction false} FinaliseKeepsNodes(c: Chunk, before: seq<Node>, m: Machine, slots: seq<Slot>, m': Machine,
                                              n0: nat)
    requires |before| == |m.nodes| == |slots| == 2 * |c.segments| && 1 <= n0 < |c.segments| && slots[2 * n0 + 1].Fresh?
    requires m'.nodes == m.nodes[n0 := m.nodes[n0].(right := [])]
    requires forall n :: 1 <= n < |c.segments| ==> NodeOk(c, before, m, slots, n)
    ensures forall n :: 1 <= n < |c.segments| ==> NodeOk(c, before, m', slots, n)
  {
    forall n | 1 <= n < |c.segments| ensures NodeOk(c, before, m', slots, n) {
      assert NodeOk(c, before, m, slots, n);
    }
  }

  // ---------------------------------------------------------------- whole runs

  /** Every step of every schedule keeps the invariant. */
  lemma {:induction false} StepKeepsInv(c: Chunk, before: seq<Node>, m: Machine, slots: seq<Slot>, m': Machine)
    returns (slots': seq<Slot>)
    requires Inv(c, before, m, slots) && Step(c, m, m')
    ensures Inv(c, before, m', slots')
  {
    slots' := slots;
    if StepCaller(c, m) == Some(m') {
      match m.caller {
        case Launching(i) =>
          if i < |m.routines| - 1 {
            slots' := StepLaunch(c, before, m, slots, i, m');
          } else {
            StepSum(c, before, m, slots, m');
          }
        case Finalising(_, _, _) => StepFinalise(c, before, m, slots, m');
        case LaunchLast(_) => slots' := StepLaunch(c, before, m, slots, |m.routines| - 1, m');
        case Waiting =>
        case Received(_) =>
      }
    } else {
      var t :| 0 <= t < |m.routines| && StepRoutine(c, m, t) == Some(m');
      match m.routines[t] {
        case Idle =>
        case Digest(_, _) => StepDigest(c, before, m, slots, t);
        case Store(_, _, _, _, _) => slots' := StepStore(c, before, m, slots, t);
        case Toggle(_, _, _, _) => slots' := StepToggle(c, before, m, slots, t);
        case Combine(_, _, _, _) => StepCombine(c, before, m, slots, t);
        case Deliver(_) => slots' := StepDeliver(c, before, m, slots, t);
        case Exited =>
      }
    }
  }

  lemma {:induction false} RunKeepsInv(c: Chunk, before: seq<Node>, run: seq<Machine>) returns (slots: seq<Slot>)
    requires c.Valid() && |before| == 2 * |c.segments| && Clean(before) && IsRun(c, before, run)
    ensures Inv(c, before, run[|run| - 1], slots)
    decreases |run|
  {
    var last := |run| - 1;
    if last == 0 {
      slots := seq(2 * |c.segments|, _ => Fresh);
    } else {
      slots := RunKeepsInv(c, before, run[..last]);
      slots := StepKeepsInv(c, before, run[last - 1], slots, run[last]);
    }
  }

  /** Once the root has arrived, so has everything below it. */
  lemma {:induction false} AllArrived(c: Chunk, before: seq<Node>, m: Machine, slots: seq<Slot>, n: nat)
    requires Inv(c, before, m, slots) && slots[1].Arrived? && 1 <= n < |slots|
    ensures slots[n].Arrived?
  {
    if n > 1 {
      AllArrived(c, before, m, slots, n / 2);
      assert NodeOk(c, before, m, slots, n / 2);
    }
  }

  /** When every goroutine has left, the root has arrived. */
  lemma {:induction false} ExitedMeansArrived(c: Chunk, before: seq<Node>, m: Machine, slots: seq<Slot>, n: nat)
    requires Inv(c, before, m, slots) && 1 <= n < |slots|
    requires forall t :: 0 <= t < |m.routines| ==> m.routines[t].Exited?
    ensures slots[n].Arrived?
    decreases |slots| - n
  {
    assert SlotOk(c, m, slots, n);
    if n >= |c.segments| {
      assert RoutineOk(c, m, slots, n - |c.segments|);
    } else {
      ExitedMeansArrived(c, before, m, slots, 2 * n);
      ExitedMeansArrived(c, before, m, slots, 2 * n + 1);
      assert NodeOk(c, before, m, slots, n);
    }
  }

  ghost predicate CanStep(c: Chunk, m: Machine) {
    exists m' :: Step(c, m, m')
  }

  /** Progress: a run that has not delivered its result can go on. */
  lemma {:induction false} NotStuck(c: Chunk, before: seq<Node>, m: Machine, slots: seq<Slot>)
    requires Inv(c, before, m, slots) && !m.caller.Received?
    ensures CanStep(c, m)
  {
    InvInRange(c, before, m, slots);
    if m.caller.Waiting? {
      if forall t :: 0 <= t < |m.routines| ==> m.routines[t].Exited? {
        ExitedMeansArrived(c, before, m, slots, 1);
        assert false;
      }
      var t :| 0 <= t < |m.routines| && !m.routines[t].Exited?;
      assert !m.routines[t].Idle?;
      assert Step(c, m, StepRoutine(c, m, t).value);
    } else {
      assert Step(c, m, StepCaller(c, m).value);
    }
  }

  /** The tree after a finished run: every goroutine gone, every toggle two further on. */
  ghost predicate Finished(c: Chunk, before: seq<Node>, m: Machine) {
    && |m.nodes| == |before| == 2 * |c.segments| && |m.routines| == |c.segments|
    && (forall t :: 0 <= t < |m.routines| ==> m.routines[t].Exited?)
    && (forall n :: 1 <= n < |m.nodes| ==>
          var node := m.nodes[n];
          !node.unbalanced && node.root == (n == 1) &&
          node.state == if n < |c.segments| then Inc32(before[n].state + 1) else before[n].state)
  }

  lemma {:induction false} ReceivedMeansFinished(c: Chunk, before: seq<Node>, m: Machine, slots: seq<Slot>)
    requires Inv(c, before, m, slots) && m.caller.Received?
    ensures Finished(c, before, m) && m.caller.r == Value(c, 1)
  {
    forall n | 1 <= n < |slots| ensures slots[n].Arrived? {
      AllArrived(c, before, m, slots, n);
    }
    forall t | 0 <= t < |m.routines| ensures m.routines[t].Exited? {
      assert RoutineOk(c, m, slots, t);
    }
    forall n | 1 <= n < |c.segments| ensures m.nodes[n].state == Inc32(before[n].state + 1) {
      assert NodeOk(c, before, m, slots, n);
    }
  }

  // ---------------------------------------------------------------- the reference hash

  function Flat(segments: seq<Bytes>): Bytes {
    if segments == [] then [] else segments[0] + Flat(segments[1..])
  }

  lemma {:induction false} FlatSplit(a: seq<Bytes>, b: seq<Bytes>)
    ensures Flat(a + b) == Flat(a) + Flat(b)
  {
    if a == [] {
      assert a + b == b && Flat(a) == [];
    } else {
      FlatSplit(a[1..], b);
      FlatFirst(a + b, a[0], a[1..] + b);
      FlatFirst(a, a[0], a[1..]);
      Regroup(a[0], Flat(a[1..]), Flat(b));
    }
  }

  lemma {:induction false} FlatFirst(a: seq<Bytes>, first: Bytes, rest: seq<Bytes>)
    requires a == [first] + rest
    ensures Flat(a) == first + Flat(rest)
  {
    assert a[1..] == rest;
  }

  lemma Regroup(x: Bytes, y: Bytes, z: Bytes)
    ensures x + (y + z) == (x + y) + z
  {
  }

  lemma {:induction false} FlatLength(a: seq<Bytes>, width: nat)
    requires forall i :: 0 <= i < |a| ==> |a[i]| == width
    ensures |Flat(a)| == |a| * width
  {
    if a != [] {
      FlatLength(a[1..], width);
      assert |a| * width == (|a| - 1) * width + width;
    }
  }

  /** Double segments of one subtree, as bytes. */
  function Span(c: Chunk, lo: nat, k: nat): Bytes
    requires lo + Pow2(k) <= |c.segments|
  {
    Flat(c.segments[lo..lo + Pow2(k)])
  }

  lemma SpanHalves(c: Chunk, lo: nat, mid: nat, j: nat)
    requires mid == lo + Pow2(j) && lo + Pow2(j + 1) <= |c.segments|
    ensures Span(c, lo, j + 1) == Span(c, lo, j) + Span(c, mid, j)
  {
    var a, b := c.segments[lo..mid], c.segments[mid..mid + Pow2(j)];
    assert c.segments[lo..lo + Pow2(j + 1)] == a + b;
    FlatSplit(a, b);
  }

  lemma {:induction false} SpanLength(c: Chunk, lo: nat, k: nat)
    requires c.Valid() && lo + Pow2(k) <= |c.segments|
    ensures |Span(c, lo, k)| == Width(c.size, k + 1)
    decreases k
  {
    if k == 0 {
      SpanLeaf(c, lo);
      assert Width(c.size, 1) == 2 * Width(c.size, 0);
    } else {
      var mid := lo + Pow2(k - 1);
      SpanLength(c, lo, k - 1);
      SpanLength(c, mid, k - 1);
      SpanHalves(c, lo, mid, k - 1);
    }
  }

  lemma SpanLeaf(c: Chunk, lo: nat)
    requires lo < |c.segments|
    ensures Span(c, lo, 0) == c.segments[lo]
  {
    assert c.segments[lo..lo + 1] == [c.segments[lo]];
    FlatFirst([c.segments[lo]], c.segments[lo], []);
  }

  /** The leftmost node k levels below n. */
  function Leftmost(n: nat, k: nat): (r: nat)
    ensures k >= 1 ==> r >= 2 * n
    decreases k
  {
    if k == 0 then n else Leftmost(2 * n, k - 1)
  }

  lemma {:induction false} LeftmostNext(n: nat, k: nat)
    ensures Leftmost(n + 1, k) == Leftmost(n, k) + Pow2(k)
    decreases k
  {
    if k > 0 {
      LeftmostNext(2 * n, k - 1);
      LeftmostNext(2 * n + 1, k - 1);
    }
  }

  lemma {:induction false} LeftmostZero(k: nat)
    ensures Leftmost(0, k) == 0
  {
    if k > 0 {
      LeftmostZero(k - 1);
    }
  }

  lemma TreeHashJoin(h: BaseHash, size: nat, a: Bytes, b: Bytes, k: nat)
    requires k >= 1 && |a| == |b| == Width(size, k)
    ensures |a + b| == Width(size, k + 1)
    ensures TreeHash(h, size, a + b, k + 1) == h(TreeHash(h, size, a, k) + TreeHash(h, size, b, k))
  {
    assert (a + b)[..|a|] == a && (a + b)[|a|..] == b;
  }

  /** The hash of the double segments from lo on that are below one node k levels up. */
  function SegmentHash(c: Chunk, lo: nat, k: nat): Bytes
    requires lo + Pow2(k) <= |c.segments|
    decreases k
  {
    if k == 0 then c.h(c.segments[lo])
    else c.h(SegmentHash(c, lo, k - 1) + SegmentHash(c, lo + Pow2(k - 1), k - 1))
  }

  lemma {:induction false} SegmentHashIsTreeHash(c: Chunk, lo: nat, k: nat, d: Bytes)
    requires c.Valid() && lo + Pow2(k) <= |c.segments| && d == Span(c, lo, k) && |d| == Width(c.size, k + 1)
    ensures SegmentHash(c, lo, k) == TreeHash(c.h, c.size, d, k + 1)
    decreases k
  {
    if k == 0 {
      SpanLeaf(c, lo);
    } else {
      var j, mid := k - 1, lo + Pow2(k - 1);
      var a, b := Span(c, lo, j), Span(c, mid, j);
      SpanLength(c, lo, j);
      SpanLength(c, mid, j);
      SegmentHashIsTreeHash(c, lo, j, a);
      SegmentHashIsTreeHash(c, mid, j, b);
      SpanHalves(c, lo, mid, j);
      SegmentHashJoin(c, lo, mid, j, k, a, b, d);
    }
  }

  lemma {:induction false} SegmentHashJoin(c: Chunk, lo: nat, mid: nat, j: nat, k: nat, a: Bytes, b: Bytes, d: Bytes)
    requires k == j + 1 && mid == lo + Pow2(j) && lo + Pow2(k) <= |c.segments|
    requires |a| == |b| == Width(c.size, k) && |d| == Width(c.size, k + 1) && d == a + b
    requires SegmentHash(c, lo, j) == TreeHash(c.h, c.size, a, k)
    requires SegmentHash(c, mid, j) == TreeHash(c.h, c.size, b, k)
    ensures SegmentHash(c, lo, k) == TreeHash(c.h, c.size, d, k + 1)
  {
    JoinStep(c.h, c.size, a, b, d, k, SegmentHash(c, lo, j), SegmentHash(c, mid, j));
  }

  lemma JoinStep(h: BaseHash, size: nat, a: Bytes, b: Bytes, both: Bytes, k: nat, x: Bytes, y: Bytes)
    requires k >= 1 && |a| == |b| == Width(size, k) && both == a + b
    requires x == TreeHash(h, size, a, k) && y == TreeHash(h, size, b, k)
    ensures |both| == Width(size, k + 1) && TreeHash(h, size, both, k + 1) == h(x + y)
  {
    TreeHashJoin(h, size, a, b, k);
  }

  /** The hash at a node whose leftmost leaf is `lo` is the hash of the segments below it. */
  lemma {:induction false} ValueIsSegmentHash(c: Chunk, n: nat, lo: nat, k: nat)
    requires n >= 1 && lo + Pow2(k) <= |c.segments|
    requires Leftmost(n, k) == |c.segments| + lo
    ensures n < 2 * |c.segments|
    ensures Value(c, n) == SegmentHash(c, lo, k)
    decreases k
  {
    if k > 0 {
      var j, mid := k - 1, lo + Pow2(k - 1);
      LeftmostNext(2 * n, j);
      ValueIsSegmentHash(c, 2 * n, lo, j);
      ValueIsSegmentHash(c, 2 * n + 1, mid, j);
    }
  }

  /** The root hash is what the reference hasher computes for the same bytes. */
  lemma {:induction false} RootIsRefHash(c: Chunk)
    requires c.Valid()
    ensures Pow2(c.depth) * c.size >= 1
    ensures Value(c, 1) == RefHash(c.h, 2 * c.size, Flat(c.segments), Pow2(c.depth) * c.size)
  {
    LeftmostZero(c.depth);
    LeftmostNext(0, c.depth);
    ValueIsSegmentHash(c, 1, 0, c.depth);
    SpanLength(c, 0, c.depth);
    SegmentHashIsTreeHash(c, 0, c.depth, Span(c, 0, c.depth));
    assert c.segments[0..Pow2(c.depth)] == c.segments;
    WidthIs(c.size, c.depth);
    RefHashIsTreeHash(c.h, c.size, Flat(c.segments), c.depth + 1, Pow2(c.depth) * c.size);
  }

  // ---------------------------------------------------------------- termination

  function RoutineRank(depth: nat, r: Routine): nat {
    match r
    case Idle => 3 * depth + 3
    case Digest(_, _) => 3 * depth + 2
    case Store(n, _, _, _, _) => if n == 0 then 0 else 3 * Level(n) + 4
    case Toggle(n, _, _, _) => if n == 0 then 0 else 3 * Level(n) + 3
    case Combine(n, _, _, _) => if n == 0 then 0 else 3 * Level(n) + 2
    case Deliver(_) => 1
    case Exited => 0
  }

  function RanksFrom(depth: nat, routines: seq<Routine>): nat {
    if routines == [] then 0 else RoutineRank(depth, routines[0]) + RanksFrom(depth, routines[1..])
  }

  function CallerRank(depth: nat, leaves: nat, caller: Caller): int {
    match caller
    case Launching(i) => leaves - i + depth + 3
    case Finalising(_, _, d) => depth - d + 3
    case LaunchLast(_) => 2
    case Waiting => 1
    case Received(_) => 0
  }

  /** An upper bound on the number of steps still to come. */
  function Rank(c: Chunk, m: Machine): int {
    RanksFrom(c.depth, m.routines) + CallerRank(c.depth, |m.routines|, m.caller)
  }

  lemma {:induction false} RanksUpdate(depth: nat, routines: seq<Routine>, t: nat, r: Routine)
    requires t < |routines|
    ensures RanksFrom(depth, routines[t := r])
         == RanksFrom(depth, routines) - RoutineRank(depth, routines[t]) + RoutineRank(depth, r)
  {
    var routines' := routines[t := r];
    if t == 0 {
      assert routines'[1..] == routines[1..];
    } else {
      RanksUpdate(depth, routines[1..], t - 1, r);
      assert routines'[1..] == routines[1..][t - 1 := r];
    }
  }

  lemma {:induction false} CallerStepLowersRank(c: Chunk, before: seq<Node>, m: Machine, slots: seq<Slot>)
    requires Inv(c, before, m, slots) && InRange(c, m) && StepCaller(c, m).Some?
    ensures Rank(c, StepCaller(c, m).value) < Rank(c, m)
  {
    var last := |m.routines| - 1;
    if m.caller.Launching? {
      var i := m.caller.i;
      RanksUpdate(c.depth, m.routines, i, Launch(c, i, c.segments[i], c.depth));
    } else if m.caller.LaunchLast? {
      RanksUpdate(c.depth, m.routines, last, Launch(c, last, c.segments[last], m.caller.d));
    }
  }

  /** Each step of a goroutine at a node in range lowers its rank. */
  lemma RoutineRankFalls(c: Chunk, m: Machine, t: nat)
    requires c.Valid() && InRange(c, m) && t < |m.routines| && StepRoutine(c, m, t).Some?
    requires forall n :: 1 <= n < |m.nodes| ==> m.nodes[n].root == (n == 1)
    ensures var m' := StepRoutine(c, m, t).value;
      m'.routines == m.routines[t := m'.routines[t]] &&
      RoutineRank(c.depth, m'.routines[t]) < RoutineRank(c.depth, m.routines[t])
    ensures var m' := StepRoutine(c, m, t).value;
      CallerRank(c.depth, |m'.routines|, m'.caller) <= CallerRank(c.depth, |m.routines|, m.caller)
  {
    if m.routines[t].Digest? {
      LevelOf(c.depth, t);
    }
  }

  lemma {:induction false} RoutineStepLowersRank(c: Chunk, before: seq<Node>, m: Machine, slots: seq<Slot>, t: nat)
    requires Inv(c, before, m, slots) && InRange(c, m) && t < |m.routines| && StepRoutine(c, m, t).Some?
    ensures Rank(c, StepRoutine(c, m, t).value) < Rank(c, m)
  {
    var m' := StepRoutine(c, m, t).value;
    RoutineRankFalls(c, m, t);
    RanksUpdate(c.depth, m.routines, t, m'.routines[t]);
  }

  lemma {:induction false} StepLowersRank(c: Chunk, before: seq<Node>, m: Machine, slots: seq<Slot>, m': Machine)
    requires Inv(c, before, m, slots) && Step(c, m, m')
    ensures Rank(c, m') < Rank(c, m)
  {
    if StepCaller(c, m) == Some(m') {
      CallerStepLowersRank(c, before, m, slots);
    } else {
      var t :| 0 <= t < |m.routines| && StepRoutine(c, m, t) == Some(m');
      RoutineStepLowersRank(c, before, m, slots, t);
    }
  }

  lemma {:induction false} RunLowersRank(c: Chunk, before: seq<Node>, run: seq<Machine>)
    requires c.Valid() && |before| == 2 * |c.segments| && Clean(before) && IsRun(c, before, run)
    ensures Rank(c, run[|run| - 1]) + |run| - 1 <= Rank(c, run[0])
    decreases |run|
  {
    var last := |run| - 1;
    if last > 0 {
      RunLowersRank(c, before, run[..last]);
      var slots := RunKeepsInv(c, before, run[..last]);
      StepLowersRank(c, before, run[last - 1], slots, run[last]);
    }
  }

  // ---------------------------------------------------------------- main results

  /**
   * Every schedule of a full chunk on a clean tree: it can always go on until the caller has its
   * result, the result is the reference hash of the same bytes, nothing can happen after that,
   * and no schedule is longer than a bound known at the start.
   */
  lemma {:induction false} EveryScheduleDeliversRefHash(c: Chunk, before: seq<Node>, run: seq<Machine>)
    requires c.Valid() && |before| == 2 * |c.segments| && Clean(before) && IsRun(c, before, run)
    ensures |run| <= Rank(c, run[0]) + 1
    ensures var m := run[|run| - 1];
      if m.caller.Received?
      then Pow2(c.depth) * c.size >= 1
        && m.caller.r == RefHash(c.h, 2 * c.size, Flat(c.segments), Pow2(c.depth) * c.size)
        && Finished(c, before, m) && !CanStep(c, m)
      else CanStep(c, m)
  {
    var m := run[|run| - 1];
    var slots := RunKeepsInv(c, before, run);
    RunLowersRank(c, before, run);
    assert Rank(c, m) >= 0 by {
      if m.caller.Launching? { assert m.caller.i < |c.segments|; }
    }
    if m.caller.Received? {
      ReceivedMeansFinished(c, before, m, slots);
      RootIsRefHash(c);
    } else {
      NotStuck(c, before, m, slots);
    }
  }
}
