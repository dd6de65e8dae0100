// Base58 with leading zeros: a change of base between byte strings and strings over an alphabet of 58 characters.
module Base58 {
  import opened Arithmetic

  /** The characters of the alphabet in order: digits and letters without 0, I, O and l. */
  function Letter(i: nat): char
    requires i < 58
  {
    if i < 9 then ('1' as int + i) as char
    else if i < 17 then ('A' as int + i - 9) as char
    else if i < 22 then ('J' as int + i - 17) as char
    else if i < 33 then ('P' as int + i - 22) as char
    else if i < 44 then ('a' as int + i - 33) as char
    else ('m' as int + i - 44) as char
  }

  /** The digit of a character, 255 outside the alphabet. */
  function B58(c: char): nat {
    if '1' <= c <= '9' then c as int - '1' as int
    else if 'A' <= c <= 'H' then c as int - 'A' as int + 9
    else if 'J' <= c <= 'N' then c as int - 'J' as int + 17
    else if 'P' <= c <= 'Z' then c as int - 'P' as int + 22
    else if 'a' <= c <= 'k' then c as int - 'a' as int + 33
    else if 'm' <= c <= 'z' then c as int - 'm' as int + 44
    else 255
  }

  ghost predicate Below(d: seq<nat>, base: nat) {
    forall i :: 0 <= i < |d| ==> d[i] < base
  }

  /** The number that digits denote, the first digit being the highest. */
  function Value(d: seq<nat>, base: nat): nat {
    if d == [] then 0 else Value(d[..|d| - 1], base) * base + d[|d| - 1]
  }

  /** The digits of a number without leading zeros. */
  function Digits(v: nat, base: nat): seq<nat>
    requires base >= 2
  {
    if v == 0 then []
    else
      Recompose(v, base, v / base, v % base);
      Digits(v / base, base) + [v % base]
  }

  /** The number of leading zeros. */
  function Lead(d: seq<nat>): nat {
    if d != [] && d[0] == 0 then 1 + Lead(d[1..]) else 0
  }

  function Zeros(n: nat): (d: seq<nat>)
    ensures |d| == n && forall i :: 0 <= i < n ==> d[i] == 0
  {
    if n == 0 then [] else [0] + Zeros(n - 1)
  }

  /** The change of base that keeps leading zeros. */
  function Convert(d: seq<nat>, from: nat, to: nat): seq<nat>
    requires to >= 2
  {
    Zeros(Lead(d)) + Digits(Value(d, from), to)
  }

  lemma {:induction false} ValueOfDigits(v: nat, base: nat)
    requires base >= 2
    ensures Value(Digits(v, base), base) == v && Below(Digits(v, base), base)
    ensures v > 0 ==> Digits(v, base) != [] && Digits(v, base)[0] != 0
  {
    if v > 0 {
      var q, r := v / base, v % base;
      Recompose(v, base, q, r);
      ValueOfDigits(q, base);
      DigitsStep(Digits(q, base), q, r, v, base);
    }
  }

  lemma Recompose(v: nat, base: nat, q: nat, r: nat)
    requires base >= 2 && q == v / base && r == v % base
    ensures q * base + r == v && r < base && (v > 0 ==> q < v)
  {
    ProductGrows(2, base, q);
    assert q * base + r == v && base * q == q * base;
  }

  lemma {:induction false} DigitsStep(d: seq<nat>, q: nat, r: nat, v: nat, base: nat)
    requires base >= 2 && Below(d, base) && Value(d, base) == q && (d != [] ==> d[0] != 0)
    requires r < base && q * base + r == v > 0
    ensures Value(d + [r], base) == v && Below(d + [r], base) && (d + [r])[0] != 0
  {
    AppendDigit(d, r, base);
    if d == [] {
      assert q == 0 && q * base == 0;
    }
  }

  lemma {:induction false} AppendDigit(d: seq<nat>, r: nat, base: nat)
    requires Below(d, base) && r < base
    ensures Value(d + [r], base) == Value(d, base) * base + r && Below(d + [r], base)
  {
    assert (d + [r])[..|d|] == d;
  }

  lemma {:induction false} DigitsOfValue(d: seq<nat>, base: nat)
    requires base >= 2 && Below(d, base) && (d != [] ==> d[0] != 0)
    ensures Digits(Value(d, base), base) == d
    ensures d != [] ==> Value(d, base) > 0
  {
    if d != [] {
      var front, last := d[..|d| - 1], d[|d| - 1];
      DigitsOfValue(front, base);
      assert d == front + [last];
      AppendBack(Value(front, base), last, base);
    }
  }

  /** The digits of a number that is a multiple of the base and a digit. */
  lemma AppendBack(v: nat, r: nat, base: nat)
    requires base >= 2 && r < base && v + r > 0
    ensures v * base + r > 0 && Digits(v * base + r, base) == Digits(v, base) + [r]
  {
    var x := v * base + r;
    DivMod(x, v, r, base);
    if v > 0 {
      ProductGrows(1, v, base);
    }
  }

  lemma {:induction false} LeadSplits(d: seq<nat>)
    ensures Lead(d) <= |d| && d == Zeros(Lead(d)) + d[Lead(d)..]
    ensures Lead(d) < |d| ==> d[Lead(d)] != 0
  {
    if d != [] && d[0] == 0 {
      LeadSplits(d[1..]);
      assert d == [0] + d[1..];
    }
  }

  lemma {:induction false} LeadOfZeros(n: nat, d: seq<nat>)
    requires d == [] || d[0] != 0
    ensures Lead(Zeros(n) + d) == n
  {
    if n > 0 {
      LeadOfZeros(n - 1, d);
      assert (Zeros(n) + d)[1..] == Zeros(n - 1) + d;
    } else {
      assert Zeros(0) + d == d;
    }
  }

  lemma {:induction false} ZerosCountNothing(n: nat, d: seq<nat>, base: nat)
    ensures Value(Zeros(n) + d, base) == Value(d, base)
    decreases |d| + n
  {
    var all := Zeros(n) + d;
    if d != [] {
      ZerosCountNothing(n, d[..|d| - 1], base);
      assert all[..|all| - 1] == Zeros(n) + d[..|d| - 1];
    } else if n > 0 {
      ZerosCountNothing(n - 1, d, base);
      assert all[..|all| - 1] == Zeros(n - 1) + d;
    }
  }

  /** Changing the base and back gives the same digits, leading zeros included. */
  lemma ConvertBack(d: seq<nat>, from: nat, to: nat)
    requires from >= 2 && to >= 2 && Below(d, from)
    ensures Convert(Convert(d, from, to), to, from) == d && Below(Convert(d, from, to), to)
  {
    var n, v := Lead(d), Value(d, from);
    var e := Digits(v, to);
    LeadSplits(d);
    var rest := d[n..];
    ZerosCountNothing(n, rest, from);
    DigitsOfValue(rest, from);
    ValueOfDigits(v, to);
    LeadOfZeros(n, e);
    ZerosCountNothing(n, e, to);
  }

  function Text(d: seq<nat>): (s: string)
    requires forall i :: 0 <= i < |d| ==> d[i] < 58
    ensures |s| == |d| && forall i :: 0 <= i < |s| ==> s[i] == Letter(d[i])
  {
    if d == [] then [] else Text(d[..|d| - 1]) + [Letter(d[|d| - 1])]
  }

  function ToDigits(s: string): (d: seq<nat>)
    ensures |d| == |s| && forall i :: 0 <= i < |s| ==> d[i] == B58(s[i])
  {
    if s == [] then [] else ToDigits(s[..|s| - 1]) + [B58(s[|s| - 1])]
  }

  predicate InAlphabet(s: string) {
    forall i :: 0 <= i < |s| ==> ToDigits(s)[i] != 255
  }

  /** Letters and digits correspond one to one. */
  lemma Letters(i: nat, c: char)
    ensures i < 58 ==> B58(Letter(i)) == i
    ensures B58(c) != 255 ==> B58(c) < 58 && Letter(B58(c)) == c
  {
  }

  function Reversed<T>(s: seq<T>): (r: seq<T>)
    ensures |r| == |s| && forall i :: 0 <= i < |s| ==> r[i] == s[|s| - 1 - i]
  {
    if s == [] then [] else [s[|s| - 1]] + Reversed(s[..|s| - 1])
  }

  /** Appending at the low end puts a digit in front of the reversed digits. */
  lemma {:induction false} PushDigit(low: seq<nat>, m: nat)
    requires Below(low, 58) && m < 58
    ensures Below(low + [m], 58) && Reversed(low + [m]) == [m] + Reversed(low)
    ensures Text(low + [m]) == Text(low) + [Letter(m)]
  {
    assert (low + [m])[..|low|] == low;
  }

  lemma {:induction false} PushLow(all: seq<nat>, x: nat, low: seq<nat>)
    requires x > 0 && Below(low, 58) && all == Digits(x, 58) + Reversed(low)
    ensures all == Digits(x / 58, 58) + Reversed(low + [x % 58])
  {
    var q, r := x / 58, x % 58;
    PushDigit(low, r);
    assert Digits(x, 58) == Digits(q, 58) + [r];
    Regroup(Digits(q, 58), r, Reversed(low));
  }

  lemma Regroup(a: seq<nat>, r: nat, b: seq<nat>)
    ensures a + [r] + b == a + ([r] + b)
  {
  }

  lemma PushZero(all: seq<nat>, k: nat, low: seq<nat>)
    requires Below(low, 58) && Reversed(low) == Zeros(k) + all
    ensures Reversed(low + [0]) == Zeros(k + 1) + all
  {
    PushDigit(low, 0);
    assert Zeros(k + 1) == [0] + Zeros(k);
  }

  method Reverse(s: string) returns (r: string)
    ensures r == Reversed(s)
  {
    r := s;
    var n := |s|;
    for i := 0 to n / 2
      invariant |r| == n
      invariant forall k :: 0 <= k < i ==> r[k] == s[n - 1 - k] && r[n - 1 - k] == s[k]
      invariant forall k :: i <= k < n - i ==> r[k] == s[k]
    {
      var j := n - 1 - i;
      r := r[i := r[j]][j := r[i]];
    }
    forall k | 0 <= k < n ensures r[k] == s[n - 1 - k] {
      if k >= n - n / 2 {
        assert r[n - 1 - (n - 1 - k)] == s[n - 1 - k];
      }
    }
  }

  lemma {:induction false} ReversedText(low: seq<nat>)
    requires Below(low, 58)
    ensures InAlphabet(Reversed(Text(low))) && ToDigits(Reversed(Text(low))) == Reversed(low)
  {
    var s := Reversed(Text(low));
    forall i | 0 <= i < |s| ensures B58(s[i]) == Reversed(low)[i] {
      Letters(Reversed(low)[i], '1');
    }
  }

  /** Repeated division gives the digits from the lowest up, on top of those given. */
  method LowDigits(v: nat) returns (answer: string, ghost low: seq<nat>)
    ensures Below(low, 58) && answer == Text(low) && Reversed(low) == Digits(v, 58)
  {
    var x := v;
    answer, low := [], [];
    ghost var all := Digits(v, 58);
    while x > 0
      invariant Below(low, 58) && answer == Text(low) && all == Digits(x, 58) + Reversed(low)
    {
      var mod := x % 58;
      PushDigit(low, mod);
      PushLow(all, x, low);
      x, answer, low := x / 58, answer + [Letter(mod)], low + [mod];
    }
  }

  /**
   * The text over the alphabet whose digits are the bytes in base 58, one leading zero digit for each leading zero
   * byte.
   */
  method Encode(b: seq<nat>) returns (s: string)
    requires Below(b, 256)
    ensures InAlphabet(s) && ToDigits(s) == Convert(b, 256, 58)
  {
    var x := Value(b, 256);
    var answer: string;
    ghost var low: seq<nat>;
    answer, low := LowDigits(x);
    answer, low := AddZeros(b, answer, low, Digits(x, 58));
    ReversedText(low);
    s := Reverse(answer);
  }

  /** One zero digit on top for each leading zero byte. */
  method AddZeros(b: seq<nat>, answer0: string, ghost low0: seq<nat>, ghost all: seq<nat>)
    returns (answer: string, ghost low: seq<nat>)
    requires Below(low0, 58) && answer0 == Text(low0) && Reversed(low0) == all
    ensures Below(low, 58) && answer == Text(low) && Reversed(low) == Zeros(Lead(b)) + all
  {
    answer, low := answer0, low0;
    var k := 0;
    ghost var n := Lead(b);
    LeadSplits(b);
    while k < |b| && b[k] == 0
      invariant k <= n && Below(low, 58) && answer == Text(low) && Reversed(low) == Zeros(k) + all
    {
      PushDigit(low, 0);
      PushZero(all, k, low);
      answer, low, k := answer + [Letter(0)], low + [0], k + 1;
    }
    assert k == n;
  }

  lemma {:induction false} ValueFront(d: nat, rest: seq<nat>, base: nat)
    ensures Value([d] + rest, base) == Power(base, |rest|) * d + Value(rest, base)
  {
    var all := [d] + rest;
    if rest == [] {
      assert all[..0] == [] && Value(all, base) == 0 * base + d;
    } else {
      var front, last := rest[..|rest| - 1], rest[|rest| - 1];
      ValueFront(d, front, base);
      assert all[..|all| - 1] == [d] + front;
      Distribute(Power(base, |front|), d, Value(front, base), base);
    }
  }

  lemma Distribute(p: nat, d: nat, v: nat, base: nat)
    ensures (p * d + v) * base == (p * base) * d + v * base
  {
  }

  function Sum(j: nat, digit: nat, rest: nat): nat {
    j * digit + rest
  }

  /** The number that the digits from i on denote. */
  ghost function Rest(d: seq<nat>, i: nat, base: nat): nat
    requires i <= |d|
    decreases |d| - i
  {
    if i == |d| then 0 else Sum(Power(base, |d| - i - 1), d[i], Rest(d, i + 1, base))
  }

  lemma {:induction false} RestIsValue(d: seq<nat>, i: nat, base: nat)
    requires i <= |d|
    ensures Rest(d, i, base) == Value(d[i..], base)
    decreases |d| - i
  {
    if i < |d| {
      RestIsValue(d, i + 1, base);
      ValueFront(d[i], d[i + 1..], base);
      assert d[i..] == [d[i]] + d[i + 1..];
    }
  }

  lemma {:induction false} RestIsAll(d: seq<nat>, base: nat)
    ensures Rest(d, 0, base) == Value(d, base)
  {
    RestIsValue(d, 0, base);
    assert d[0..] == d;
  }

  /** The number a text denotes, summed up from its last character. */
  method DecodeValue(s: string) returns (ok: bool, answer: nat)
    ensures ok <==> InAlphabet(s)
    ensures ok ==> answer == Value(ToDigits(s), 58)
  {
    answer := 0;
    var j, i: nat := 1, |s|;
    ghost var d := ToDigits(s);
    while i > 0
      invariant i <= |s| && (forall k :: i <= k < |s| ==> d[k] != 255)
      invariant answer == Rest(d, i, 58) && j == Power(58, |s| - i)
    {
      i := i - 1;
      var tmp := B58(s[i]);
      if tmp == 255 {
        return false, answer;
      }
      assert d[i] == tmp;
      answer, j := Sum(j, tmp, answer), j * 58;
    }
    RestIsAll(d, 58);
    ok := true;
  }

  method CountOnes(s: string) returns (n: nat)
    ensures n == Lead(ToDigits(s))
  {
    n := 0;
    while n < |s| && s[n] == '1'
      invariant n <= |s| && forall k :: 0 <= k < n ==> s[k] == '1'
    {
      n := n + 1;
    }
    LeadIs(ToDigits(s), n);
  }

  lemma {:induction false} LeadIs(d: seq<nat>, n: nat)
    requires n <= |d| && (forall k :: 0 <= k < n ==> d[k] == 0) && (n < |d| ==> d[n] != 0)
    ensures Lead(d) == n
  {
    if n > 0 {
      LeadIs(d[1..], n - 1);
    }
  }

  /** The bytes of a text, empty when a character is not in the alphabet. */
  method Decode(s: string) returns (val: seq<nat>)
    ensures val == if InAlphabet(s) then Convert(ToDigits(s), 58, 256) else []
  {
    var ok, answer := DecodeValue(s);
    if !ok {
      return [];
    }
    var numZeros := CountOnes(s);
    return Zeros(numZeros) + Digits(answer, 256);
  }

  /** Every byte string comes back from its text. */
  method BytesRoundTrip(b: seq<nat>) returns (c: seq<nat>)
    requires Below(b, 256)
    ensures c == b
  {
    var s := Encode(b);
    c := Decode(s);
    ConvertBack(b, 256, 58);
  }

  /** Every text over the alphabet comes back from its bytes. */
  method TextRoundTrip(s: string) returns (t: string)
    requires InAlphabet(s)
    ensures t == s
  {
    var b := Decode(s);
    DigitsBelow(s);
    ConvertBack(ToDigits(s), 58, 256);
    t := Encode(b);
    SameText(s, t);
  }

  lemma {:induction false} DigitsBelow(s: string)
    requires InAlphabet(s)
    ensures Below(ToDigits(s), 58)
  {
    forall i | 0 <= i < |s| ensures ToDigits(s)[i] < 58 {
      Letters(0, s[i]);
    }
  }

  /** Texts over the alphabet with equal digits are equal. */
  lemma {:induction false} SameText(s: string, t: string)
    requires InAlphabet(s) && InAlphabet(t) && ToDigits(s) == ToDigits(t)
    ensures s == t
  {
    forall i | 0 <= i < |s| ensures s[i] == t[i] {
      Letters(0, s[i]);
      Letters(0, t[i]);
      assert ToDigits(s)[i] == ToDigits(t)[i];
    }
  }
}
