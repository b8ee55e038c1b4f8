// Proof of work (internal/pow/work.go): the 256-bit target, the bytes that are hashed, the
// check and the brute-force solver. The hash is any function from bytes to 32 bytes.

module Work {

  const POW32 := 0x1_0000_0000
  const POW64 := 0x1_0000_0000_0000_0000
  const POW128 := POW64 * POW64
  const POW256 := POW128 * POW128

  type Uint32 = n: nat | n < POW32
  type Uint64 = n: nat | n < POW64
  type Byte = n: nat | n < 256

  datatype Target = Reject | Below(t: nat)

  // ----- the target -----

  lemma MulLe(a: nat, b: nat, c: nat, d: nat)
    requires a <= b && c <= d
    ensures a * c <= b * d
  {
    assert a * c <= b * c;
    assert c * b <= d * b;
  }

  /** q is the floor of x / d. */
  predicate IsFloor(q: nat, x: nat, d: nat) {
    q * d <= x < (q + 1) * d
  }

  lemma DivIsFloor(x: nat, d: nat)
    requires d > 0
    ensures IsFloor(x / d, x, d)
  {
    var q, r := x / d, x % d;
    assert x == q * d + r && r < d;
    assert (q + 1) * d == q * d + d;
  }

  lemma OneFloor(p: nat, q: nat, x: nat, d: nat)
    requires IsFloor(p, x, d) && IsFloor(q, x, d)
    ensures p == q
  {
    if p < q { MulLe(p + 1, q, d, d); }
    if q < p { MulLe(q + 1, p, d, d); }
  }

  /** Below the floor is below the quotient with room for one more. */
  lemma BelowFloor(h: nat, t: nat, x: nat, d: nat)
    requires IsFloor(t, x, d)
    ensures h < t <==> (h + 1) * d <= x
  {
    if h < t {
      MulLe(h + 1, t, d, d);
    } else {
      MulLe(t + 1, h + 1, d, d);
    }
  }

  lemma NoZero(a: nat, b: nat)
    ensures a * b == 0 <==> a == 0 || b == 0
  {
    if a > 0 && b > 0 { MulLe(1, a, 1, b); }
  }

  /** The divisor of three fixed-width factors stays below 2^128. */
  lemma DivisorFits(w0: Uint64, l: Uint32, count: Uint32)
    ensures w0 * count * l < POW128
  {
    MulLe(w0, POW64 - 1, count, POW32 - 1);
    MulLe(w0 * count, (POW64 - 1) * (POW32 - 1), l, POW32 - 1);
  }

  lemma FloorIsLarge(t: nat, d: nat)
    requires 0 < d <= POW128 && IsFloor(t, POW256, d)
    ensures t >= POW128
  {
    if t < POW128 {
      MulLe(t + 1, POW128, d, POW128);
    }
  }

  /** Multiplied up in place; zero in any factor rejects everything. Otherwise t is the floor of
      2^256 / (w0 * count * l), and for no inputs smaller than 2^128. */
  method TargetOf(w0: Uint64, l: Uint32, count: Uint32) returns (target: Target)
    ensures target.Reject? <==> w0 == 0 || count == 0 || l == 0
    ensures target.Below? ==> IsFloor(target.t, POW256, w0 * count * l) && target.t >= POW128
  {
    var d: nat := w0;
    d := d * count;
    d := d * l;
    NoZero(w0, count);
    NoZero(w0 * count, l);
    if d == 0 { return Reject; }
    DivIsFloor(POW256, d);
    DivisorFits(w0, l, count);
    FloorIsLarge(POW256 / d, d);
    return Below(POW256 / d);
  }

  /** Dividing one after the other: the floor of a floor. */
  lemma FloorOfFloor(x: nat, d: nat, count: nat, t: nat, u: nat)
    requires IsFloor(t, x, d) && IsFloor(u, t, count)
    ensures IsFloor(u, x, d * count)
  {
    MulLe(u * count, t, d, d);
    MulLe(t + 1, (u + 1) * count, d, d);
    assert u * (d * count) == (u * count) * d && (u + 1) * (d * count) == ((u + 1) * count) * d;
  }

  /** The target of a batch is the target of a single click, floor-divided by the count: a
      batch costs what its clicks cost, to within rounding. */
  lemma BatchTarget(w0: nat, l: nat, count: nat, single: nat, batch: nat)
    requires w0 > 0 && l > 0 && count > 0
    requires IsFloor(single, POW256, w0 * 1 * l) && IsFloor(batch, POW256, w0 * count * l)
    ensures batch == single / count
  {
    DivIsFloor(single, count);
    assert w0 * 1 * l == w0 * l;
    FloorOfFloor(POW256, w0 * l, count, single, single / count);
    assert w0 * l * count == w0 * count * l;
    OneFloor(batch, single / count, POW256, w0 * count * l);
  }

  // ----- the hashed bytes -----

  function Pow256(n: nat): nat {
    if n == 0 then 1 else 256 * Pow256(n - 1)
  }

  /** v in n bytes, most significant first. */
  function BigEndian(v: nat, n: nat): (bytes: seq<Byte>)
    ensures |bytes| == n
  {
    if n == 0 then [] else BigEndian(v / 256, n - 1) + [v % 256]
  }

  /** The number bytes stand for (big.Int.SetBytes). */
  function Number(bytes: seq<Byte>): nat {
    if bytes == [] then 0 else 256 * Number(bytes[..|bytes| - 1]) + bytes[|bytes| - 1]
  }

  lemma {:induction false} NumberOfBytes(v: nat, n: nat)
    requires v < Pow256(n)
    ensures Number(BigEndian(v, n)) == v
  {
    if n > 0 {
      assert v / 256 < Pow256(n - 1);
      NumberOfBytes(v / 256, n - 1);
      assert BigEndian(v, n)[..n - 1] == BigEndian(v / 256, n - 1);
    }
  }

  /** Most significant first: what comes in front weighs 256 to the number of bytes behind it. */
  lemma {:induction false} NumberWeighs(front: seq<Byte>, back: seq<Byte>)
    ensures Number(front + back) == Number(front) * Pow256(|back|) + Number(back)
  {
    if back == [] {
      assert front + back == front;
    } else {
      hide Pow256;
      var rest, n := back[..|back| - 1], |back| - 1;
      PowStep(n);
      NumberWeighs(front, rest);
      assert (front + back)[..|front + back| - 1] == front + rest;
      Reorder(Number(front), Pow256(n), Number(rest), back[n]);
    }
  }

  lemma PowStep(n: nat)
    ensures Pow256(n + 1) == 256 * Pow256(n)
  {
  }

  lemma Reorder(a: nat, p: nat, b: nat, last: nat)
    ensures 256 * (a * p + b) + last == a * (256 * p) + (256 * b + last)
  {
  }

  lemma Widths()
    ensures Pow256(4) == POW32 && Pow256(8) == POW64
  {
    assert Pow256(4) == 256 * (256 * (256 * (256 * Pow256(0))));
    assert Pow256(8) == 256 * (256 * (256 * (256 * Pow256(4))));
  }

  /** tokenBytes || be32(count) || be64(nonce). */
  function Hashed(token: seq<Byte>, count: Uint32, nonce: Uint64): seq<Byte> {
    token + (BigEndian(count, 4) + BigEndian(nonce, 8))
  }

  /** No two submissions hash the same bytes, whatever the lengths of their tokens. */
  lemma HashedIsInjective(token: seq<Byte>, count: Uint32, nonce: Uint64, token': seq<Byte>, count': Uint32,
                          nonce': Uint64)
    requires Hashed(token, count, nonce) == Hashed(token', count', nonce')
    ensures token == token' && count == count' && nonce == nonce'
  {
    var a, b := Hashed(token, count, nonce), Hashed(token', count', nonce');
    var n := |a| - 12;
    assert a[..n] == token && b[..n] == token';
    assert a[n..n + 4] == BigEndian(count, 4) && b[n..n + 4] == BigEndian(count', 4);
    assert a[n + 4..] == BigEndian(nonce, 8) && b[n + 4..] == BigEndian(nonce', 8);
    Widths();
    NumberOfBytes(count, 4);
    NumberOfBytes(count', 4);
    NumberOfBytes(nonce, 8);
    NumberOfBytes(nonce', 8);
  }

  /** Which bytes are which: the token, then four that read back as the count, then eight that read
      back as the nonce. */
  lemma HashedLayout(token: seq<Byte>, count: Uint32, nonce: Uint64)
    ensures var bytes := Hashed(token, count, nonce);
            var n := |token|;
            && |bytes| == n + 12 && bytes[..n] == token
            && Number(bytes[n..n + 4]) == count && Number(bytes[n + 4..n + 12]) == nonce
  {
    var bytes, n := Hashed(token, count, nonce), |token|;
    assert bytes[n..n + 4] == BigEndian(count, 4) && bytes[n + 4..n + 12] == BigEndian(nonce, 8);
    Widths();
    NumberOfBytes(count, 4);
    NumberOfBytes(nonce, 8);
  }

  /** PutUint32 and PutUint64: v into n bytes of the array from `at` on. */
  method Put(suffix: array<Byte>, at: nat, n: nat, v: nat)
    requires at + n <= suffix.Length
    modifies suffix
    ensures suffix[..] == old(suffix[..at]) + BigEndian(v, n) + old(suffix[at + n..])
  {
    var i, rest := n, v;
    while i > 0
      invariant 0 <= i <= n
      invariant BigEndian(v, n) == BigEndian(rest, i) + suffix[at + i..at + n]
      invariant suffix[..at] == old(suffix[..at]) && suffix[at + n..] == old(suffix[at + n..])
    {
      i := i - 1;
      ghost var tail := suffix[at + i + 1..at + n];
      suffix[at + i] := rest % 256;
      assert suffix[at + i..at + n] == [rest % 256] + tail;
      rest := rest / 256;
    }
    assert suffix[..] == suffix[..at] + suffix[at..at + n] + suffix[at + n..];
  }

  // ----- the check -----

  type Hash = seq<Byte> -> seq<Byte>

  predicate Enough(h: nat, d: int) {
    d > 0 && (h + 1) * d <= POW256
  }

  function HashValue(hash: Hash, token: seq<Byte>, count: Uint32, nonce: Uint64): nat {
    Number(hash(Hashed(token, count, nonce)))
  }

  /** What a nonce has to achieve: its hash, plus one, times the difficulty is at most 2^256. */
  predicate Works(hash: Hash, token: seq<Byte>, w0: Uint64, l: Uint32, count: Uint32, nonce: Uint64) {
    Enough(HashValue(hash, token, count, nonce), w0 * count * l)
  }

  lemma FloorDecides(h: nat, t: nat, d: int)
    requires d > 0 && IsFloor(t, POW256, d)
    ensures h < t <==> Enough(h, d)
  {
    BelowFloor(h, t, POW256, d);
  }

  /** Read over the rationals, "below 2^256 / (w0 * count * l)" would admit one hash value more,
      the floor itself, unless the division is exact. */
  lemma RationalBound(h: nat, t: nat, d: int)
    requires d > 0 && IsFloor(t, POW256, d)
    ensures h * d < POW256 <==> Enough(h, d) || (h == t && t * d != POW256)
  {
    if h < t {
      MulLe(h + 1, t, d, d);
    } else {
      MulLe(t, h, d, d);
      if h > t { MulLe(t + 1, h, d, d); }
      BelowFloor(h, t, POW256, d);
    }
  }

  /** The hash value is below 2^256 / (w0 * count * l), and none of the factors is zero. */
  ghost predicate Meets(h: nat, w0: nat, l: nat, count: nat) {
    w0 != 0 && l != 0 && count != 0 && forall t: nat | IsFloor(t, POW256, w0 * count * l) :: h < t
  }

  lemma WorksIffMeets(hash: Hash, token: seq<Byte>, w0: Uint64, l: Uint32, count: Uint32, nonce: Uint64)
    ensures Works(hash, token, w0, l, count, nonce) <==> Meets(HashValue(hash, token, count, nonce), w0, l, count)
  {
    NoZero(w0, count);
    NoZero(w0 * count, l);
    var h, d := HashValue(hash, token, count, nonce), w0 * count * l;
    if d > 0 {
      DivIsFloor(POW256, d);
      FloorDecides(h, POW256 / d, d);
      forall t: nat | IsFloor(t, POW256, d) ensures t == POW256 / d { OneFloor(t, POW256 / d, POW256, d); }
    }
  }

  /** How hard L makes it: what was hashed works at exactly the levels from 1 to
      2^256 / ((h + 1) w0 count), rounded down. */
  lemma LevelsThatWork(hash: Hash, token: seq<Byte>, w0: Uint64, l: Uint32, count: Uint32, nonce: Uint64)
    requires w0 > 0 && count > 0
    ensures var each := (HashValue(hash, token, count, nonce) + 1) * w0 * count;
            each > 0 && (Works(hash, token, w0, l, count, nonce) <==> 1 <= l <= POW256 / each)
  {
    var h := HashValue(hash, token, count, nonce);
    var each := (h + 1) * w0 * count;
    NoZero(h + 1, w0);
    NoZero((h + 1) * w0, count);
    NoZero(w0, count);
    NoZero(w0 * count, l);
    assert (h + 1) * (w0 * count * l) == each * l;
    var top := POW256 / each;
    DivIsFloor(POW256, each);
    if l <= top {
      MulLe(l, top, each, each);
    } else {
      MulLe(top + 1, l, each, each);
    }
  }

  method CheckWork(hash: Hash, token: seq<Byte>, w0: Uint64, l: Uint32, count: Uint32, nonce: Uint64) returns (ok: bool)
    ensures ok <==> Works(hash, token, w0, l, count, nonce)
    ensures ok <==> Meets(HashValue(hash, token, count, nonce), w0, l, count)
  {
    WorksIffMeets(hash, token, w0, l, count, nonce);
    var target := TargetOf(w0, l, count);
    NoZero(w0, count);
    NoZero(w0 * count, l);
    if target.Reject? { return false; }
    var suffix := new Byte[12](_ => 0);
    Put(suffix, 0, 4, count);
    ghost var first := suffix[..];
    Put(suffix, 4, 8, nonce);
    assert suffix[..] == BigEndian(count, 4) + BigEndian(nonce, 8) by {
      assert first[..4] == BigEndian(count, 4) && first[12..] == [];
    }
    var h := Number(hash(token + suffix[..]));
    FloorDecides(h, target.t, w0 * count * l);
    return h < target.t;
  }

  /** A nonce that works at one difficulty works at every lower one. */
  lemma LowerIsEasier(hash: Hash, token: seq<Byte>, w0: Uint64, l: Uint32, l': Uint32, count: Uint32, nonce: Uint64)
    requires Works(hash, token, w0, l, count, nonce) && 0 < l' <= l
    ensures Works(hash, token, w0, l', count, nonce)
  {
    NoZero(w0 * count, l);
    NoZero(w0 * count, l');
    MulLe(w0 * count, w0 * count, l', l);
    EnoughForLess(HashValue(hash, token, count, nonce), w0 * count * l, w0 * count * l');
  }

  lemma EnoughForLess(h: nat, d: int, d': int)
    requires Enough(h, d) && 0 < d' <= d
    ensures Enough(h, d')
  {
    MulLe(h + 1, h + 1, d', d);
  }

  /** The loop of the source, cut off after `tries` rounds, whose nonce wraps around: it ends with
      the least nonce that works if one is among those tried, and else goes on, for ever if none
      works at all. */
  method Solve(hash: Hash, token: seq<Byte>, w0: Uint64, l: Uint32, count: Uint32, tries: nat)
    returns (solved: bool, nonce: Uint64)
    ensures solved ==> Works(hash, token, w0, l, count, nonce)
    ensures solved ==> forall m: Uint64 | m < nonce :: !Works(hash, token, w0, l, count, m)
    ensures solved <==> exists m: Uint64 :: m < tries && Works(hash, token, w0, l, count, m)
  {
    nonce := 0;
    for i := 0 to tries
      invariant i < POW64 ==> nonce == i
      invariant forall m: Uint64 | m < i :: !Works(hash, token, w0, l, count, m)
    {
      solved := CheckWork(hash, token, w0, l, count, nonce);
      if solved { return true, nonce; }
      nonce := if nonce + 1 == POW64 then 0 else nonce + 1;
    }
    solved := false;
  }
}
