/** Byte strings: big-endian integers, concatenation, and the Option and Result types the other modules share. */
module Bytes {
  type Byte = b: int | 0 <= b < 0x100

  datatype Option<+T> = None | Some(value: T)

  datatype Result<+T, +E> = Ok(value: T) | Err(error: E)

  function GetOr<T>(o: Option<T>, default: T): T
  {
    match o case None => default case Some(v) => v
  }

  const U64_LIMIT: int := 0x1_0000_0000_0000_0000
  const I64_LIMIT: int := 0x8000_0000_0000_0000

  type I64 = v: int | -I64_LIMIT <= v < I64_LIMIT

  function Clamp(v: int, lo: int, hi: int): int
  {
    if v < lo then lo else if v > hi then hi else v
  }

  function ClampI64(v: int): (r: I64)
  {
    Clamp(v, -I64_LIMIT, I64_LIMIT - 1)
  }

  /** A cast that keeps the low 64 bits, read as two's complement. */
  function AsI64(v: int): (r: I64)
  {
    var low := v % U64_LIMIT;
    if low < I64_LIMIT then low else low - U64_LIMIT
  }

  function Pow2(n: nat): (r: nat)
    ensures r >= 1
  {
    if n == 0 then 1 else 2 * Pow2(n - 1)
  }

  /** 256 to the power `n`. */
  function Pow256(n: nat): (r: nat)
    ensures r >= 1
  {
    if n == 0 then 1 else 256 * Pow256(n - 1)
  }

  /** The low `len` bytes of `v`, most significant first. */
  function BigEndian(v: nat, len: nat): (s: seq<Byte>)
    ensures |s| == len
  {
    if len == 0 then [] else BigEndian(v / 256, len - 1) + [v % 256]
  }

  function FromBigEndian(s: seq<Byte>): nat
  {
    if s == [] then 0 else FromBigEndian(s[..|s| - 1]) * 256 + s[|s| - 1]
  }

  lemma {:induction false} BigEndianRoundTrip(v: nat, len: nat)
    requires v < Pow256(len)
    ensures FromBigEndian(BigEndian(v, len)) == v
  {
    if len > 0 {
      BigEndianRoundTrip(v / 256, len - 1);
      assert BigEndian(v, len)[..len - 1] == BigEndian(v / 256, len - 1);
    }
  }

  lemma {:induction false} FromBigEndianBound(s: seq<Byte>)
    ensures FromBigEndian(s) < Pow256(|s|)
  {
    if s != [] {
      FromBigEndianBound(s[..|s| - 1]);
    }
  }

  /** Bytes that are too few keep the low digits. */
  lemma {:induction false} BigEndianWraps(v: nat, len: nat)
    ensures FromBigEndian(BigEndian(v, len)) == v % Pow256(len)
  {
    if len > 0 {
      BigEndianWraps(v / 256, len - 1);
      assert BigEndian(v, len)[..len - 1] == BigEndian(v / 256, len - 1);
      NextDigit(v, Pow256(len - 1));
    }
  }

  lemma NextDigit(v: nat, p: nat)
    requires p >= 1
    ensures v % (256 * p) == v / 256 % p * 256 + v % 256
  {
    var q, r := v / 256 / p, v / 256 % p;
    DigitsShift(q, p, r, v % 256);
    DivUnique(v, 256 * p, q, r * 256 + v % 256);
  }

  lemma DigitsShift(q: nat, p: nat, r: nat, low: Byte)
    ensures (q * p + r) * 256 + low == q * (256 * p) + (r * 256 + low)
    ensures r < p ==> r * 256 + low < 256 * p
  {
  }

  lemma {:induction false} SameNumberSameBytes(s: seq<Byte>, t: seq<Byte>)
    requires |s| == |t| && FromBigEndian(s) == FromBigEndian(t)
    ensures s == t
  {
    if s != [] {
      SameNumberSameBytes(s[..|s| - 1], t[..|t| - 1]);
      assert s == s[..|s| - 1] + [s[|s| - 1]];
      assert t == t[..|t| - 1] + [t[|t| - 1]];
    }
  }

  /** Splitting off the first byte instead of the last. */
  lemma {:induction false} FromBigEndianFirst(s: seq<Byte>)
    requires s != []
    ensures FromBigEndian(s) == s[0] * Pow256(|s| - 1) + FromBigEndian(s[1..])
  {
    if |s| > 1 {
      var front, rest := s[..|s| - 1], s[1..];
      FromBigEndianFirst(front);
      assert rest[..|s| - 2] == front[1..];
      DigitsShift(s[0], Pow256(|s| - 2), FromBigEndian(front[1..]), s[|s| - 1]);
    } else {
      assert s[..0] == [] && s[1..] == [];
    }
  }

  /** The first byte of a big-endian number is its most significant digit. */
  lemma {:induction false} BigEndianFirst(v: nat, len: nat)
    requires len >= 1 && v < Pow256(len)
    ensures BigEndian(v, len)[0] == v / Pow256(len - 1)
  {
    var s := BigEndian(v, len);
    BigEndianRoundTrip(v, len);
    FromBigEndianFirst(s);
    FromBigEndianBound(s[1..]);
    DivUnique(v, Pow256(len - 1), s[0], FromBigEndian(s[1..]));
  }

  lemma DivUnique(v: int, d: int, q: int, r: int)
    requires d > 0 && v == q * d + r && 0 <= r < d
    ensures v / d == q && v % d == r
  {
    var k := v / d - q;
    assert k * d == r - v % d;
    assert k == 0;
  }

  lemma MulMonotone(a: int, b: int, p: int)
    requires a <= b && p >= 0
    ensures a * p <= b * p
  {
    assert (b - a) * p >= 0;
  }

  /** All the chunks, one after the other. */
  function Concat<T>(chunks: seq<seq<T>>): seq<T>
  {
    if chunks == [] then [] else Concat(chunks[..|chunks| - 1]) + chunks[|chunks| - 1]
  }

  lemma {:induction false} ConcatFirst<T>(chunks: seq<seq<T>>)
    requires chunks != []
    ensures Concat(chunks) == chunks[0] + Concat(chunks[1..])
  {
    if |chunks| > 1 {
      var front := chunks[..|chunks| - 1];
      ConcatFirst(front);
      assert chunks[1..][..|chunks| - 2] == front[1..];
    } else {
      assert chunks[..0] == [];
    }
  }
}
