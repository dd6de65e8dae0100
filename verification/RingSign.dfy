// Ring signatures and one-time addresses over an ideal cyclic group: a point is its multiple of the base point, and
// the two hashes are arbitrary functions, `hp` of a point and `h` of a message and the points written behind it.
module RingSignature {
  import opened Modular

  type Point = nat
  type Message = seq<bv8>
  type PointHash = Point -> nat
  type RingHash = (Message, seq<Point>) -> nat

  function ScalarBaseMult(k: int): Point {
    Mod(k)
  }

  function ScalarMult(p: Point, k: int): Point {
    Mod(k * p)
  }

  function Add(p: Point, q: Point): Point {
    Mod(p + q)
  }

  function ScalarHashP(hp: PointHash, x: int, p: Point): Point {
    ScalarMult(ScalarMult(p, hp(p)), x)
  }

  /** What the verifier computes for one member of the ring. */
  function Left(p: Point, c: nat, r: nat): Point {
    Add(ScalarBaseMult(r), ScalarMult(p, c))
  }

  function Right(hp: PointHash, p: Point, image: Point, c: nat, r: nat): Point {
    Add(ScalarHashP(hp, r, p), ScalarMult(image, c))
  }

  ghost function Lefts(keys: seq<Point>, c: seq<nat>, r: seq<nat>, n: nat): seq<Point>
    requires n <= |keys| && n <= |c| && n <= |r|
  {
    if n == 0 then [] else Lefts(keys, c, r, n - 1) + [Left(keys[n - 1], c[n - 1], r[n - 1])]
  }

  ghost function Rights(hp: PointHash, keys: seq<Point>, image: Point, c: seq<nat>, r: seq<nat>, n: nat): seq<Point>
    requires n <= |keys| && n <= |c| && n <= |r|
  {
    if n == 0 then [] else Rights(hp, keys, image, c, r, n - 1) + [Right(hp, keys[n - 1], image, c[n - 1], r[n - 1])]
  }

  ghost function Total(c: seq<nat>, n: nat): nat
    requires n <= |c|
  {
    if n == 0 then 0 else Total(c, n - 1) + c[n - 1]
  }

  /** The signature closes the ring: its challenges sum up to the hash of all commitments. */
  ghost predicate Accepts(h: RingHash, hp: PointHash, m: Message, keys: seq<Point>, image: Point, c: seq<nat>,
                          r: seq<nat>) {
    && |keys| == |c| == |r| > 0
    && Mod(h(m, Lefts(keys, c, r, |keys|) + Rights(hp, keys, image, c, r, |keys|))) == Mod(Total(c, |c|))
  }

  /** The points r[i]*G + c[i]*keys[i], and behind them the points r[i]*hp(keys[i])*keys[i] + c[i]*image. */
  ghost predicate Commits(hp: PointHash, keys: seq<Point>, image: Point, c: seq<nat>, r: seq<nat>, w: seq<Point>)
    requires |keys| == |c| == |r|
  {
    && |w| == 2 * |keys|
    && forall i :: 0 <= i < |keys| ==> CommitsAt(hp, keys, image, c, r, w, i)
  }

  ghost predicate CommitsAt(hp: PointHash, keys: seq<Point>, image: Point, c: seq<nat>, r: seq<nat>, w: seq<Point>,
                            i: nat)
    requires i < |keys| == |c| == |r| && |w| == 2 * |keys|
  {
    && w[i] < N && Congruent(w[i], r[i] + c[i] * keys[i])
    && w[|keys| + i] < N && Congruent(w[|keys| + i], r[i] * (hp(keys[i]) * keys[i]) + c[i] * image)
  }

  lemma LeftIs(p: Point, c: nat, r: nat)
    ensures Left(p, c, r) < N && Congruent(Left(p, c, r), r + c * p)
  {
    var t := c * p;
    ModSum(r, t);
    Reduced(r + t);
  }

  lemma RightIs(hp: PointHash, p: Point, image: Point, c: nat, r: nat)
    ensures Right(hp, p, image, c, r) < N
    ensures Congruent(Right(hp, p, image, c, r), r * (hp(p) * p) + c * image)
  {
    var base, t := hp(p) * p, c * image;
    var s := r * base;
    ModMulLeft(r, base);
    ModSum(s, t);
    Reduced(s + t);
  }

  lemma Reduced(a: int)
    ensures Congruent(Mod(a), a) && Mod(a) < N
  {
    CongruentIff(Mod(a), a);
    ModAdd(a, 0);
  }

  lemma {:induction false} LeftsAt(keys: seq<Point>, c: seq<nat>, r: seq<nat>, n: nat, i: nat)
    requires i < n <= |keys| && n <= |c| && n <= |r|
    ensures |Lefts(keys, c, r, n)| == n && Lefts(keys, c, r, n)[i] == Left(keys[i], c[i], r[i])
  {
    if n > 1 {
      LeftsAt(keys, c, r, n - 1, if i < n - 1 then i else 0);
    }
  }

  lemma {:induction false} RightsAt(hp: PointHash, keys: seq<Point>, image: Point, c: seq<nat>, r: seq<nat>, n: nat,
                                    i: nat)
    requires i < n <= |keys| && n <= |c| && n <= |r|
    ensures |Rights(hp, keys, image, c, r, n)| == n
    ensures Rights(hp, keys, image, c, r, n)[i] == Right(hp, keys[i], image, c[i], r[i])
  {
    if n > 1 {
      RightsAt(hp, keys, image, c, r, n - 1, if i < n - 1 then i else 0);
    }
  }

  lemma {:induction false} WrittenCommits(hp: PointHash, keys: seq<Point>, image: Point, c: seq<nat>, r: seq<nat>)
    requires |keys| == |c| == |r| > 0
    ensures Commits(hp, keys, image, c, r, Lefts(keys, c, r, |keys|) + Rights(hp, keys, image, c, r, |keys|))
  {
    var n := |keys|;
    var w := Lefts(keys, c, r, n) + Rights(hp, keys, image, c, r, n);
    LeftsAt(keys, c, r, n, 0);
    RightsAt(hp, keys, image, c, r, n, 0);
    forall i | 0 <= i < n ensures CommitsAt(hp, keys, image, c, r, w, i) {
      LeftsAt(keys, c, r, n, i);
      RightsAt(hp, keys, image, c, r, n, i);
      LeftIs(keys[i], c[i], r[i]);
      RightIs(hp, keys[i], image, c[i], r[i]);
    }
  }

  /** The commitments are determined by the ring, the image and the signature. */
  lemma CommitsOnce(hp: PointHash, keys: seq<Point>, image: Point, c: seq<nat>, r: seq<nat>, v: seq<Point>,
                    w: seq<Point>)
    requires |keys| == |c| == |r| && Commits(hp, keys, image, c, r, v) && Commits(hp, keys, image, c, r, w)
    ensures v == w
  {
    forall j | 0 <= j < |v| ensures v[j] == w[j] {
      var i := if j < |keys| then j else j - |keys|;
      assert CommitsAt(hp, keys, image, c, r, v, i) && CommitsAt(hp, keys, image, c, r, w, i);
      SameResidue(v[i], w[i], r[i] + c[i] * keys[i]);
      SameResidue(v[|keys| + i], w[|keys| + i], r[i] * (hp(keys[i]) * keys[i]) + c[i] * image);
    }
  }

  lemma SameResidue(a: nat, b: nat, t: int)
    requires a < N && b < N && Congruent(a, t) && Congruent(b, t)
    ensures a == b
  {
    CongruentIff(a, t);
    CongruentIff(b, t);
  }

  /** A signature is accepted if and only if its challenges sum up to the hash of the commitments, modulo N. */
  lemma AcceptsIff(h: RingHash, hp: PointHash, m: Message, keys: seq<Point>, image: Point, c: seq<nat>, r: seq<nat>,
                   w: seq<Point>)
    requires |keys| == |c| == |r| > 0 && Commits(hp, keys, image, c, r, w)
    ensures Accepts(h, hp, m, keys, image, c, r) <==> Congruent(h(m, w), Total(c, |c|))
  {
    WrittenCommits(hp, keys, image, c, r);
    CommitsOnce(hp, keys, image, c, r, w, Lefts(keys, c, r, |keys|) + Rights(hp, keys, image, c, r, |keys|));
    CongruentIff(h(m, w), Total(c, |c|));
  }

  method VerifyRingSign(h: RingHash, hp: PointHash, m: Message, keys: seq<Point>, image: Point, c: seq<nat>,
                        r: seq<nat>)
    returns (ok: bool, ghost w: seq<Point>)
    ensures ok <==> Accepts(h, hp, m, keys, image, c, r)
    ensures |keys| == |c| == |r| > 0 ==>
      Commits(hp, keys, image, c, r, w) && (ok <==> Congruent(h(m, w), Total(c, |c|)))
    ensures !(|keys| == |c| == |r| > 0) || (forall v :: !Congruent(h(m, v), Total(c, |c|))) ==> !ok
  {
    w := [];
    if |keys| == 0 || |keys| != |c| || |keys| != |r| {
      return false, w;
    }
    var sumC, written := 0, [];
    for i := 0 to |keys|
      invariant written == Lefts(keys, c, r, i) && sumC == Mod(Total(c, i))
    {
      var l := Add(ScalarBaseMult(r[i]), ScalarMult(keys[i], c[i]));
      ModAdd(Total(c, i), c[i]);
      sumC := Mod(sumC + c[i]);
      written := written + [l];
    }
    ghost var lefts := written;
    for i := 0 to |keys|
      invariant written == lefts + Rights(hp, keys, image, c, r, i)
    {
      written := written + [Add(ScalarHashP(hp, r[i], keys[i]), ScalarMult(image, c[i]))];
    }
    w := written;
    WrittenCommits(hp, keys, image, c, r);
    AcceptsIff(h, hp, m, keys, image, c, r, w);
    return Mod(h(m, written)) == sumC, w;
  }

  /** With response q - c*x, challenge c against the multiple x gives back the commitment q, whatever the base. */
  lemma Closes(q: int, c: int, x: int, base: int)
    ensures Mod(Mod(Mod(q - c * x) * base) + Mod(c * Mod(x * base))) == Mod(q * base)
  {
    var a, y := q - c * x, x * base;
    ModMul(a, base);
    ModMulLeft(c, y);
    Cancel(q, c, x, base);
    AddResidues(Mod(Mod(a) * base), Mod(c * Mod(y)), a * base, c * y, q * base);
  }

  lemma AddResidues(p: int, q: int, u: int, v: int, t: int)
    requires p == Mod(u) && q == Mod(v) && u + v == t
    ensures Mod(p + q) == Mod(t)
  {
    ModSum(u, v);
  }

  lemma ModMulLeft(a: int, b: int)
    ensures Mod(a * Mod(b)) == Mod(a * b)
  {
    ModMul(b, a);
    Commute(a, b);
    Commute(a, Mod(b));
  }

  lemma Commute(a: int, b: int)
    ensures a * b == b * a
  {
  }

  lemma Cancel(q: int, c: int, x: int, base: int)
    ensures (q - c * x) * base + c * (x * base) == q * base
  {
  }

  lemma ClosesLeft(q: nat, c: nat, x: nat)
    ensures Left(ScalarBaseMult(x), c, Mod(q - c * x)) == ScalarBaseMult(q)
  {
    var r := Mod(q - c * x);
    Closes(q, c, x, 1);
    assert r * 1 == r && x * 1 == x && q * 1 == q;
    ModAdd(r, 0);
  }

  lemma ClosesRight(hp: PointHash, p: Point, q: nat, c: nat, x: nat)
    ensures Right(hp, p, ScalarHashP(hp, x, p), c, Mod(q - c * x)) == ScalarHashP(hp, q, p)
  {
    var base, r := ScalarMult(p, hp(p)), Mod(q - c * x);
    Closes(q, c, x, base);
    ClosesAt(base, q, c, x, r);
  }

  lemma ClosesAt(base: Point, q: nat, c: nat, x: nat, r: nat)
    requires Mod(Mod(r * base) + Mod(c * Mod(x * base))) == Mod(q * base)
    ensures Add(ScalarMult(base, r), ScalarMult(ScalarMult(base, x), c)) == ScalarMult(base, q)
  {
  }

  /** The sum of the challenges but the signer's. */
  ghost function Others(w: seq<nat>, s: nat, n: nat): nat
    requires n <= |w|
  {
    if n == 0 then 0 else Others(w, s, n - 1) + if n - 1 == s then 0 else w[n - 1]
  }

  lemma {:induction false} TotalWithSigner(w: seq<nat>, s: nat, c: nat, n: nat)
    requires s < |w| && n <= |w|
    ensures Total(w[s := c], n) == Others(w, s, n) + if s < n then c else 0
  {
    if n > 0 {
      TotalWithSigner(w, s, c, n - 1);
    }
  }

  /** What the signer writes for one member: without a challenge at its own position. */
  ghost function SignerLefts(keys: seq<Point>, w: seq<nat>, q: seq<nat>, s: nat, n: nat): seq<Point>
    requires n <= |keys| && n <= |w| && n <= |q|
  {
    if n == 0 then []
    else
      SignerLefts(keys, w, q, s, n - 1) +
      [if n - 1 == s then ScalarBaseMult(q[n - 1]) else Left(keys[n - 1], w[n - 1], q[n - 1])]
  }

  ghost function SignerRight(hp: PointHash, p: Point, image: Point, w: nat, q: nat, own: bool): Point {
    if own then ScalarHashP(hp, q, p) else Right(hp, p, image, w, q)
  }

  ghost function SignerRights(hp: PointHash, keys: seq<Point>, image: Point, w: seq<nat>, q: seq<nat>, s: nat,
                              n: nat): seq<Point>
    requires n <= |keys| && n <= |w| && n <= |q|
  {
    if n == 0 then []
    else
      SignerRights(hp, keys, image, w, q, s, n - 1) +
      [SignerRight(hp, keys[n - 1], image, w[n - 1], q[n - 1], n - 1 == s)]
  }

  /** The verifier recomputes exactly the points the signer wrote. */
  lemma {:induction false} SameLefts(keys: seq<Point>, w: seq<nat>, q: seq<nat>, s: nat, c: nat, r: nat, n: nat)
    requires s < |keys| == |w| == |q| && n <= |keys| && Left(keys[s], c, r) == ScalarBaseMult(q[s])
    ensures Lefts(keys, w[s := c], q[s := r], n) == SignerLefts(keys, w, q, s, n)
  {
    if n > 0 {
      SameLefts(keys, w, q, s, c, r, n - 1);
    }
  }

  lemma {:induction false} SameRights(hp: PointHash, keys: seq<Point>, image: Point, w: seq<nat>, q: seq<nat>, s: nat,
                                      c: nat, r: nat, n: nat)
    requires s < |keys| == |w| == |q| && n <= |keys|
    requires Right(hp, keys[s], image, c, r) == ScalarHashP(hp, q[s], keys[s])
    ensures Rights(hp, keys, image, w[s := c], q[s := r], n) == SignerRights(hp, keys, image, w, q, s, n)
  {
    if n > 0 {
      SameRights(hp, keys, image, w, q, s, c, r, n - 1);
    }
  }

  /**
   * Signs with the secret x of the first key, which moves to position s. Whatever the ring, the message, the position
   * and the randoms q0 and w0, the result is accepted; the key image depends on the secret and its key alone.
   */
  method RingSign(h: RingHash, hp: PointHash, m: Message, x: nat, keys: array<Point>, s: nat, q0: seq<nat>,
                  w0: seq<nat>)
    returns (ok: bool, image: Point, w: seq<nat>, q: seq<nat>)
    requires |q0| == |w0| == keys.Length && (keys.Length > 0 ==> s < keys.Length)
    modifies keys
    ensures ok <==> keys.Length > 0
    ensures ok ==> keys[..] == old(keys[..])[0 := old(keys[s])][s := old(keys[0])]
    ensures ok ==> image == ScalarHashP(hp, x, old(keys[0]))
    ensures ok ==> |w| == |q| == keys.Length && w == w0[s := w[s]] && q == q0[s := q[s]]
    ensures ok && old(keys[0]) == ScalarBaseMult(x) ==> Accepts(h, hp, m, keys[..], image, w, q)
  {
    image, w, q := 0, w0, q0;
    if keys.Length == 0 {
      return false, image, w, q;
    }
    image := ScalarHashP(hp, x, keys[0]);
    if s > 0 {
      keys[0], keys[s] := keys[s], keys[0];
    }
    ghost var ring := keys[..];
    var sumC, written := WriteLefts(keys, w, q, s);
    var rights := WriteRights(hp, keys, image, w, q, s);
    var hash: int := h(m, written + rights);
    var cs := Mod(hash - sumC);
    var rs := Mod(q[s] - cs * x);
    if ring[s] == ScalarBaseMult(x) {
      SignerCloses(hp, ring, image, x, w, q, s, cs, rs);
      TotalWithSigner(w, s, cs, |w|);
      SumCloses(hash, Others(w, s, |w|), sumC, cs);
    }
    w, q := w[s := cs], q[s := rs];
    ok := true;
  }

  method WriteLefts(keys: array<Point>, w: seq<nat>, q: seq<nat>, s: nat) returns (sumC: nat, written: seq<Point>)
    requires |w| == |q| == keys.Length
    ensures written == SignerLefts(keys[..], w, q, s, |w|) && sumC == Mod(Others(w, s, |w|))
  {
    sumC, written := 0, [];
    for i := 0 to keys.Length
      invariant written == SignerLefts(keys[..], w, q, s, i) && sumC == Mod(Others(w, s, i))
    {
      var l := WriteLeft(keys[i], w[i], q[i], i == s);
      if i != s {
        ModAdd(Others(w, s, i), w[i]);
        sumC := Mod(sumC + w[i]);
      }
      written := written + [l];
    }
  }

  method WriteLeft(p: Point, w: nat, q: nat, own: bool) returns (l: Point)
    ensures l == if own then ScalarBaseMult(q) else Left(p, w, q)
  {
    l := ScalarBaseMult(q);
    if !own {
      l := Add(l, ScalarMult(p, w));
    }
  }

  method WriteRights(hp: PointHash, keys: array<Point>, image: Point, w: seq<nat>, q: seq<nat>, s: nat)
    returns (written: seq<Point>)
    requires |w| == |q| == keys.Length
    ensures written == SignerRights(hp, keys[..], image, w, q, s, |w|)
  {
    written := [];
    for i := 0 to keys.Length
      invariant written == SignerRights(hp, keys[..], image, w, q, s, i)
    {
      var r := ScalarHashP(hp, q[i], keys[i]);
      if i != s {
        r := Add(r, ScalarMult(image, w[i]));
      }
      written := written + [r];
    }
  }

  lemma {:induction false} SignerCloses(hp: PointHash, keys: seq<Point>, image: Point, x: nat, w: seq<nat>,
                                        q: seq<nat>, s: nat, c: nat, r: nat)
    requires s < |keys| == |w| == |q| && keys[s] == ScalarBaseMult(x)
    requires image == ScalarHashP(hp, x, keys[s]) && r == Mod(q[s] - c * x)
    ensures Lefts(keys, w[s := c], q[s := r], |keys|) == SignerLefts(keys, w, q, s, |keys|)
    ensures Rights(hp, keys, image, w[s := c], q[s := r], |keys|) == SignerRights(hp, keys, image, w, q, s, |keys|)
  {
    ClosesLeft(q[s], c, x);
    SameLefts(keys, w, q, s, c, r, |keys|);
    ClosesRight(hp, keys[s], q[s], c, x);
    SameRights(hp, keys, image, w, q, s, c, r, |keys|);
  }

  lemma SumCloses(hash: int, others: nat, sumC: nat, c: nat)
    requires sumC == Mod(others) && c == Mod(hash - sumC)
    ensures Mod(others + c) == Mod(hash)
  {
    ModAdd(hash - sumC, others);
    ModAdd(others, hash - sumC);
    ModShift(others + hash - sumC, hash, others / N);
  }

  /** The one-time address for receiver keys (A, B) and random r. */
  function GenerateA1(hp: PointHash, r: int, a: Point, b: Point): Point {
    Add(ScalarBaseMult(hp(ScalarMult(b, r))), a)
  }

  function CompareA1(hp: PointHash, b: int, a: Point, s1: Point, a1: Point): bool {
    a1 == GenerateA1(hp, b, a, s1)
  }

  function OneTimePrivateKey(hp: PointHash, a: int, b: int, r: Point): nat {
    Mod(hp(ScalarMult(r, b)) + a)
  }

  /** Sender and receiver reach the same shared point. */
  lemma SharedPoint(r: int, b: int)
    ensures ScalarMult(ScalarBaseMult(b), r) == ScalarMult(ScalarBaseMult(r), b)
  {
    ModMul(b, r);
    ModMul(r, b);
    assert r * Mod(b) == Mod(b) * r && b * Mod(r) == Mod(r) * b && b * r == r * b;
  }

  /**
   * The receiver of a one-time address recognises it and derives its secret, for every choice of secrets and random.
   */
  lemma OneTimeAddress(hp: PointHash, a: int, b: int, r: int)
    ensures var A1 := GenerateA1(hp, r, ScalarBaseMult(a), ScalarBaseMult(b));
      && CompareA1(hp, b, ScalarBaseMult(a), ScalarBaseMult(r), A1)
      && ScalarBaseMult(OneTimePrivateKey(hp, a, b, ScalarBaseMult(r))) == A1
  {
    SharedPoint(r, b);
    var k := hp(ScalarMult(ScalarBaseMult(b), r));
    ModAdd(k, Mod(a));
    ModAdd(a, k);
    ModAdd(k + a, 0);
  }

  /** For given keys exactly one address is recognised, and no two spending keys recognise the same one. */
  lemma OneAddress(hp: PointHash, b: int, a: Point, s1: Point, x: Point)
    ensures CompareA1(hp, b, a, s1, x) <==> x < N && Congruent(x, hp(ScalarMult(s1, b)) + a)
    ensures forall y, d: Point :: a < N && d < N && CompareA1(hp, b, a, s1, y) && CompareA1(hp, b, d, s1, y) ==> d == a
  {
    var k: nat := hp(ScalarMult(s1, b));
    ModAdd(k, a);
    CongruentIff(x, k + a);
    if x < N {
      Residue(x);
    }
    forall y, d: Point | a < N && d < N && CompareA1(hp, b, a, s1, y) && CompareA1(hp, b, d, s1, y) ensures d == a {
      ModAdd(k, d);
      SameSummand(k, a, d);
    }
  }

  lemma Residue(x: nat)
    requires x < N
    ensures Mod(x) == x
  {
  }

  lemma SameSummand(k: int, a: nat, d: nat)
    requires Mod(k + a) == Mod(k + d) && a < N && d < N
    ensures a == d
  {
    ModAdd(k + a, -k);
    ModAdd(k + d, -k);
  }

  /** The secret derived for a one-time address signs in any ring that starts with the address. */
  method SpendOneTime(h: RingHash, hp: PointHash, m: Message, a: nat, b: nat, r: nat, keys: array<Point>, s: nat,
                      q0: seq<nat>, w0: seq<nat>)
    returns (image: Point, w: seq<nat>, q: seq<nat>)
    requires s < |q0| == |w0| == keys.Length && keys[0] == GenerateA1(hp, r, ScalarBaseMult(a), ScalarBaseMult(b))
    modifies keys
    ensures Accepts(h, hp, m, keys[..], image, w, q)
  {
    OneTimeAddress(hp, a, b, r);
    var ok;
    ok, image, w, q := RingSign(h, hp, m, OneTimePrivateKey(hp, a, b, ScalarBaseMult(r)), keys, s, q0, w0);
  }
}
