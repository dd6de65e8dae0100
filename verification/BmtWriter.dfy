// `Hasher.Write`: cutting a chunk that arrives in pieces into the double segments the tree hashes.
module BmtWriter {
  import opened Arithmetic
  import opened Powers
  import opened BmtReference
  import opened BmtSchedules
  import opened Bmt

  /** The number of leaves that hold a count of segments, two to a leaf. */
  function Leaves(count: nat): nat {
    (count + 1) / 2
  }

  /**
   * Where a write cuts its input: at the capacity, except that with an odd count of segments a write that starts in
   * an open segment before the last leaf goes beyond it by that segment, up to one segment.
   */
  function Limit(size: nat, count: nat, cur: nat, open: nat): nat {
    size * count + if count % 2 == 1 && cur + 1 < Leaves(count) then Min(open, size) else 0
  }

  function CutAt(s: Bytes, limit: nat): Bytes {
    if |s| > limit then s[..limit] else s
  }

  /** The input side of `Hasher`; `launched[i]` is the double segment handed to leaf i. */
  class Writer {
    const size: nat
    const count: nat
    var cur: nat
    var segment: Bytes
    var launched: seq<Bytes>

    constructor (size: nat, count: nat)
      requires size >= 1 && count >= 1
      ensures Valid() && Written() == [] && this.size == size && this.count == count
    {
      this.size, this.count := size, count;
      cur, segment, launched := 0, [], [];
    }

    ghost predicate Valid()
      reads this
    {
      && size >= 1 && count >= 1
      && cur < Leaves(count) && |launched| == cur
      && |segment| <= 2 * size
      && (forall i :: 0 <= i < cur ==> |launched[i]| == 2 * size)
    }

    /** All bytes taken in so far. */
    function Written(): Bytes
      reads this
    {
      Flat(launched) + segment
    }

    /** `Write`: whatever does not fit the chunk any more is dropped. It panics exactly when the chunk is overfull. */
    method Write(b: Bytes) returns (panics: bool)
      requires Valid()
      modifies this
      ensures Valid()
      ensures panics <==> |b| > 0 && |old(Written())| > size * count
      ensures panics ==> Written() == old(Written())
      ensures !panics && |b| > 0 ==>
        Written() == CutAt(old(Written()) + b, Limit(size, count, old(cur), |old(segment)|))
      ensures |b| == 0 ==> Written() == old(Written())
    {
      OverfullIff(launched, segment, size, count);
      if |b| == 0 {
        return false;
      }
      ghost var before := Written();
      var rest, need, width, taken := FirstPiece(size, count, cur, |segment|, |b|);
      if rest < 0 {
        return true;
      }
      WrittenLength(before, b, taken, size, count, launched, segment);
      assert before + b[..rest] == Flat(launched) + (segment + b[..rest]);
      launched, segment, cur :=
        Fill(launched, segment + b[..rest], cur, (count + 1) / 2, b, rest, need, width, 2 * size, before, taken);
      panics := false;
    }
  }

  /**
   * What completes the open segment, and what is needed of the input beyond; the former is negative in an overfull last
   * leaf.
   */
  method FirstPiece(size: nat, count: nat, cur: nat, open: nat, input: nat)
    returns (rest: int, need: int, width: nat, ghost taken: int)
    requires size >= 1 && cur < Leaves(count) && open <= 2 * size && input > 0
    ensures rest < 0 <==> cur + 1 == Leaves(count) && open > LastWidth(size, count)
    ensures rest >= 0 ==> rest <= input && 0 <= need <= input - rest && open + rest <= 2 * size
    ensures rest >= 0 && need > 0 && cur + 1 < Leaves(count) ==> open + rest == 2 * size == width
    ensures rest >= 0 ==> taken == rest + Min(need, Times(2 * size, Leaves(count) - 1 - cur))
    ensures rest >= 0 ==>
      taken == Min(input, Limit(size, count, cur, open) - size * count + RoomFrom(size, count, cur) - open)
  {
    NeedIs(size, count, cur);
    need := count * size - cur * 2 * size;
    width := size;
    if need > size {
      width := 2 * width;
    }
    if input < need {
      need := input;
    }
    rest := width - open;
    if need < rest {
      rest := need;
    }
    need := need - rest;
    taken := rest + Min(need, Times(2 * size, Leaves(count) - 1 - cur));
    assert cur + 1 == Leaves(count) ==> Times(2 * size, Leaves(count) - 1 - cur) == 0;
  }

  /** The loop of `Write`: double segments go to the leaves until the input or the leaves run out. */
  method Fill(launched0: seq<Bytes>, s0: Bytes, cur: nat, leaves: nat, b: Bytes, rest0: nat, need0: int, width0: nat,
              double: nat, ghost before: Bytes, ghost taken: int)
    returns (launched: seq<Bytes>, s: Bytes, i: nat)
    requires cur < leaves && |launched0| == cur
    requires (forall j :: 0 <= j < cur ==> |launched0[j]| == double) && |s0| <= double
    requires rest0 <= |b| && need0 <= |b| - rest0 && (need0 > 0 && cur + 1 < leaves ==> |s0| == double == width0)
    requires taken == rest0 + Min(need0, Times(double, leaves - 1 - cur)) && need0 >= 0
    requires Flat(launched0) + s0 == before + b[..rest0]
    ensures i < leaves && |launched| == i && (forall j :: 0 <= j < i ==> |launched[j]| == double) && |s| <= double
    ensures 0 <= taken <= |b| && Flat(launched) + s == before + b[..taken]
  {
    launched, s, i := launched0, s0, cur;
    var rest, need, width := rest0, need0, width0;
    while need > 0 && i < leaves - 1
      invariant i < leaves && |launched| == i && (forall j :: 0 <= j < i ==> |launched[j]| == double) && |s| <= double
      invariant 0 <= rest <= |b| && need <= |b| - rest && (need > 0 && i + 1 < leaves ==> |s| == double == width)
      invariant taken == rest + Min(Max(need, 0), Times(double, leaves - 1 - i))
      invariant Flat(launched) + s == before + b[..rest]
    {
      need := need - width;
      if need < 0 {
        width := width + need;
      }
      Cut(launched, s, before, b, rest, width);
      launched := launched + [s];
      s := b[rest..rest + width];
      rest := rest + width;
      i := i + 1;
    }
  }

  /** The room from a leaf on. */
  function RoomFrom(size: nat, count: nat, cur: nat): nat
    requires cur < Leaves(count)
  {
    Times(2 * size, Leaves(count) - 1 - cur) + LastWidth(size, count)
  }

  /** What the code computes as still needed is the room from the current leaf on. */
  lemma {:induction false} NeedIs(size: nat, count: nat, cur: nat)
    requires size >= 1 && cur < Leaves(count)
    ensures count * size - cur * 2 * size == RoomFrom(size, count, cur)
    ensures cur + 1 < Leaves(count) ==> Times(2 * size, Leaves(count) - 1 - cur) >= 2 * size
  {
    var l, w := Leaves(count), 2 * size;
    TimesIsProduct(w, l - 1 - cur);
    Doubled(count, l, size);
    Remaining(count * size, l, cur, w, size, LastWidth(size, count));
    if cur + 1 < l {
      TimesGrows(w, 1, l - 1 - cur);
      assert Times(w, 0) == 0 && Times(w, 1) == w;
    }
  }

  lemma Remaining(all: nat, l: nat, cur: nat, w: nat, size: nat, last: nat)
    requires cur < l && w == 2 * size && all == (l - 1) * w + last
    ensures all - cur * 2 * size == w * (l - 1 - cur) + last
  {
    Difference(l - 1, cur, w);
    assert cur * 2 * size == cur * w;
  }

  lemma Doubled(count: nat, l: nat, size: nat)
    requires l == Leaves(count) >= 1
    ensures count * size == (l - 1) * (2 * size) + LastWidth(size, count)
  {
    var odd := count % 2 == 1;
    assert count == 2 * (l - 1) + if odd then 1 else 2;
    assert (2 * (l - 1)) * size == (l - 1) * (2 * size);
  }

  /** The last leaf holds one segment if the count is odd. */
  function LastWidth(size: nat, count: nat): nat {
    if count % 2 == 1 then size else 2 * size
  }

  lemma {:induction false} WrittenIs(launched: seq<Bytes>, segment: Bytes, size: nat, count: nat)
    requires size >= 1 && |launched| < Leaves(count) && forall i :: 0 <= i < |launched| ==> |launched[i]| == 2 * size
    ensures |Flat(launched) + segment| + RoomFrom(size, count, |launched|) == size * count + |segment|
  {
    FlatLength(launched, 2 * size);
    NeedIs(size, count, |launched|);
    assert |launched| * (2 * size) == |launched| * 2 * size && count * size == size * count;
  }

  /** Too much was written exactly if the last leaf holds more than its width. */
  lemma {:induction false} OverfullIff(launched: seq<Bytes>, segment: Bytes, size: nat, count: nat)
    requires size >= 1 && |launched| < Leaves(count) && |segment| <= 2 * size
    requires forall i :: 0 <= i < |launched| ==> |launched[i]| == 2 * size
    ensures |Flat(launched) + segment| > size * count <==>
      |launched| + 1 == Leaves(count) && |segment| > LastWidth(size, count)
  {
    WrittenIs(launched, segment, size, count);
    NeedIs(size, count, |launched|);
  }

  lemma {:induction false} WrittenLength(before: Bytes, b: Bytes, taken: int, size: nat, count: nat,
                                         launched: seq<Bytes>, segment: Bytes)
    requires size >= 1 && |launched| < Leaves(count) && forall i :: 0 <= i < |launched| ==> |launched[i]| == 2 * size
    requires before == Flat(launched) + segment && 0 <= taken <= |b|
    requires var limit, room := Limit(size, count, |launched|, |segment|), RoomFrom(size, count, |launched|);
      taken == Min(|b|, limit - size * count + room - |segment|)
    ensures before + b[..taken] == CutAt(before + b, Limit(size, count, |launched|, |segment|))
  {
    WrittenIs(launched, segment, size, count);
  }

  /** One leaf is launched and the next piece cut from the input. */
  lemma {:induction false} Cut(launched: seq<Bytes>, s: Bytes, before: Bytes, b: Bytes, rest: nat, width: nat)
    requires rest + width <= |b|
    requires Flat(launched) + s == before + b[..rest]
    ensures Flat(launched + [s]) + b[rest..rest + width] == before + b[..rest + width]
  {
    FlatSplit(launched, [s]);
    assert Flat([s]) == s + Flat([]);
    var piece := b[rest..rest + width];
    assert b[..rest + width] == b[..rest] + piece;
    assert Flat(launched + [s]) == Flat(launched) + s;
    assert before + (b[..rest] + piece) == (before + b[..rest]) + piece;
  }

  /**
   * A write keeps to the capacity if and only if the count is even, it starts with no open segment or in the last leaf,
   * or all fits.
   */
  lemma KeepsCapacityIff(size: nat, count: nat, cur: nat, open: nat, all: Bytes)
    requires size >= 1 && cur < Leaves(count)
    ensures CutAt(all, Limit(size, count, cur, open)) == CutAt(all, size * count) <==>
      count % 2 == 0 || open == 0 || cur + 1 == Leaves(count) || |all| <= size * count
  {
    var limit, cap := Limit(size, count, cur, open), size * count;
    if limit > cap && |all| > cap {
      assert |CutAt(all, limit)| == Min(limit, |all|) > cap == |CutAt(all, cap)|;
    }
  }

  /** Three segments of one byte: a second write takes in four bytes where three fit, and a third write panics. */
  method OddCountOverruns(a: Bytes, b: Bytes, c: Bytes) returns (w: Writer, panics: bool)
    requires |a| == 1 && |b| >= 3 && |c| >= 1
    ensures fresh(w) && w.size == 1 && w.count == 3 && |w.Written()| == 4 && panics
  {
    w := new Writer(1, 3);
    panics := w.Write(a);
    assert w.Written() == a;
    OpenSegment(w);
    panics := w.Write(b);
    panics := w.Write(c);
  }

  lemma OpenSegment(w: Writer)
    requires w.Valid() && |w.Written()| == 1 && w.size == 1
    ensures w.cur == 0 && |w.segment| == 1
  {
    FlatLength(w.launched, 2);
  }

  /** A full chunk, however it was split over calls to Write, reaches the tree as its double segments. */
  lemma {:induction false} FullChunk(w: Writer, h: BaseHash, depth: nat)
    requires w.Valid() && depth >= 1 && w.count == Pow2(depth + 1)
    requires |w.Written()| == w.size * w.count
    ensures var c := Chunk(h, w.size, depth, w.launched + [w.segment]);
      c.Valid() && Flat(c.segments) == w.Written()
  {
    FlatLength(w.launched, 2 * w.size);
    WrittenIs(w.launched, w.segment, w.size, w.count);
    NeedIs(w.size, w.count, w.cur);
    FlatSplit(w.launched, [w.segment]);
    assert Flat([w.segment]) == w.segment + Flat([]);
  }

  /** Writes in any split, then any schedule: the caller receives what the reference hasher computes. */
  lemma {:induction false} ConcurrentHashIsReferenceHash(w: Writer, h: BaseHash, depth: nat, before: seq<Node>,
                                                         run: seq<Machine>)
    requires w.Valid() && depth >= 1 && w.count == Pow2(depth + 1)
    requires |w.Written()| == w.size * w.count
    requires |before| == w.count && Clean(before)
    requires IsRun(Chunk(h, w.size, depth, w.launched + [w.segment]), before, run)
    ensures Pow2(depth) * w.size >= 1
    ensures var m := run[|run| - 1];
      m.caller.Received? ==> m.caller.r == RefHash(h, 2 * w.size, w.Written(), Pow2(depth) * w.size)
  {
    var c := Chunk(h, w.size, depth, w.launched + [w.segment]);
    FullChunk(w, h, depth);
    EveryScheduleDeliversRefHash(c, before, run);
    RootIsRefHash(c);
  }

  /** Only one power of two lies below a count with the next at or above it. */
  lemma SamePower(j: nat, k: nat, count: nat)
    requires count == Pow2(j + 1) && Pow2(k) < count <= Pow2(k + 1)
    ensures j == k
  {
    if j < k {
      Pow2Monotone(j + 1, k);
    } else if k < j {
      Pow2Monotone(k + 1, j);
    }
  }

  /** The concurrent hasher and the reference hasher set up for the same tree agree on every full chunk. */
  method AgreesWithReference(w: Writer, h: BaseHash, depth: nat, ghost before: seq<Node>, ghost run: seq<Machine>)
    returns (r: Bytes)
    requires w.Valid() && depth >= 1 && w.count == Pow2(depth + 1)
    requires |w.Written()| == w.size * w.count
    requires |before| == w.count && Clean(before)
    requires IsRun(Chunk(h, w.size, depth, w.launched + [w.segment]), before, run)
    ensures var m := run[|run| - 1]; m.caller.Received? ==> m.caller.r == r
  {
    Pow2Monotone(2, depth + 1);
    var rh, k := NewRefHasher(w.size, w.count);
    SamePower(depth, k, w.count);
    ConcurrentHashIsReferenceHash(w, h, depth, before, run);
    r := Hash(h, rh, w.Written());
  }
}
