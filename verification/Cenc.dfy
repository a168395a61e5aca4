/** Common-encryption sample crypto: counter mode (section 6.5 of NIST SP 800-38A) over clear and protected ranges. */
module Cenc {
  import opened Bytes

  type Block = s: seq<Byte> | |s| == 16 witness seq(16, _ => 0)

  /** The block cipher under the sample's key, left uninterpreted. */
  type Cipher = Block -> Block

  datatype Subsample = Subsample(clear: nat, protected: nat)

  datatype CryptoError = InvalidPattern | SubsampleOverflow

  const COUNTER_LIMIT: nat := 0x1_0000_0000_0000_0000_0000_0000_0000_0000

  /** The exclusive or of the low `bits` bits. */
  function XorBits(a: nat, b: nat, bits: nat): (r: nat)
    ensures r < Pow2(bits)
  {
    if bits == 0 then 0 else 2 * XorBits(a / 2, b / 2, bits - 1) + (if a % 2 == b % 2 then 0 else 1)
  }

  function Xor(a: Byte, b: Byte): Byte
  {
    assert Pow2(8) == 256;
    XorBits(a, b, 8)
  }

  lemma {:induction false} XorBitsTwice(a: nat, k: nat, bits: nat)
    requires a < Pow2(bits)
    ensures XorBits(XorBits(a, k, bits), k, bits) == a
  {
    if bits > 0 {
      XorBitsTwice(a / 2, k / 2, bits - 1);
      assert XorBits(a, k, bits) / 2 == XorBits(a / 2, k / 2, bits - 1);
    }
  }

  lemma XorTwice(a: Byte, k: Byte)
    ensures Xor(Xor(a, k), k) == a
  {
    assert Pow2(8) == 256;
    XorBitsTwice(a, k, 8);
  }

  // ---- The counter ----

  /** The 16-byte form of a counter value, modulo 2 to the 128. */
  function CounterBlock(n: nat): Block
  {
    BigEndian(n % COUNTER_LIMIT, 16)
  }

  /** One more, with the carry run from the last byte. */
  function Carry(s: seq<Byte>): (r: seq<Byte>)
    ensures |r| == |s|
  {
    if s == [] then []
    else if s[|s| - 1] < 255 then s[..|s| - 1] + [s[|s| - 1] + 1]
    else Carry(s[..|s| - 1]) + [0]
  }

  lemma {:induction false} CarryAddsOne(s: seq<Byte>)
    ensures FromBigEndian(Carry(s)) == (if FromBigEndian(s) + 1 == Pow256(|s|) then 0 else FromBigEndian(s) + 1)
  {
    FromBigEndianBound(s);
    if s != [] {
      var front := s[..|s| - 1];
      FromBigEndianBound(front);
      assert Carry(s)[..|s| - 1] == if s[|s| - 1] < 255 then front else Carry(front);
      CarryAddsOne(front);
    }
  }

  /** The carried counter is the next number, wrapping at 2 to the 128. */
  lemma CarryIsNext(n: nat)
    ensures Carry(CounterBlock(n)) == CounterBlock(n + 1)
  {
    hide BigEndian, FromBigEndian, Carry;
    var v := n % COUNTER_LIMIT;
    assert Pow256(16) == COUNTER_LIMIT by { LimitIsPower(); }
    BigEndianRoundTrip(v, 16);
    CarryAddsOne(CounterBlock(n));
    NextModulo(n, COUNTER_LIMIT);
    BigEndianRoundTrip((n + 1) % COUNTER_LIMIT, 16);
    SameNumberSameBytes(Carry(CounterBlock(n)), CounterBlock(n + 1));
  }

  lemma LimitIsPower()
    ensures Pow256(16) == COUNTER_LIMIT
  {
    assert Pow256(8) == 0x1_0000_0000_0000_0000;
  }

  lemma NextModulo(n: nat, m: nat)
    requires m > 1
    ensures (n + 1) % m == if n % m + 1 == m then 0 else n % m + 1
  {
    var q := n / m;
    if n % m + 1 == m {
      DivUnique(n + 1, m, q + 1, 0);
    } else {
      DivUnique(n + 1, m, q, n % m + 1);
    }
  }

  /** Adds one to a 16-byte big-endian counter in place, wrapping. */
  method IncBe128(block: array<Byte>)
    requires block.Length == 16
    modifies block
    ensures block[..] == Carry(old(block[..]))
    ensures forall n: nat :: old(block[..]) == CounterBlock(n) ==> block[..] == CounterBlock(n + 1)
  {
    hide CounterBlock;
    ghost var was := block[..];
    var i := 16;
    assert was[..16] == was && block[16..] == [];
    while i > 0
      invariant 0 <= i <= 16
      invariant block[..i] == was[..i]
      invariant Carry(was) == Carry(was[..i]) + block[i..]
    {
      i := i - 1;
      assert was[..i + 1][..i] == was[..i];
      assert block[i] == was[i] by { assert block[..i + 1][i] == was[..i + 1][i]; }
      if block[i] < 255 {
        ghost var tail := block[i + 1..];
        block[i] := block[i] + 1;
        assert block[..] == was[..i] + [block[i]] + tail;
        break;
      }
      block[i] := 0;
      assert Carry(was[..i + 1]) == Carry(was[..i]) + [0];
      assert block[i..] == [0] + block[i + 1..];
    }
    if i == 0 {
      assert block[0..] == block[..];
    }
    forall n: nat | was == CounterBlock(n)
      ensures block[..] == CounterBlock(n + 1)
    {
      CarryIsNext(n);
    }
  }

  // ---- One protected range ----

  /** The byte of key stream at `offset` in the counter's `index`-th block from `iv` on. */
  function KeyByte(cipher: Cipher, iv: nat, index: nat, offset: nat): Byte
    requires offset < 16
  {
    cipher(CounterBlock(iv + index))[offset]
  }

  function BlocksIn(n: nat): nat
  {
    (n + 15) / 16
  }

  /** Counter mode over `data[lo..hi]` in place: one counter value per 16 bytes or part of them. */
  method XorCtr(
    cipher: Cipher, counter: array<Byte>, data: array<Byte>, lo: nat, hi: nat, ghost iv: nat, ghost index: nat)
    requires counter.Length == 16 && counter != data && lo <= hi <= data.Length
    requires counter[..] == CounterBlock(iv + index)
    modifies counter, data
    ensures counter[..] == CounterBlock(iv + index + BlocksIn(hi - lo))
    ensures forall k | 0 <= k < data.Length :: data[k] ==
              if lo <= k < hi then Xor(old(data[k]), KeyByte(cipher, iv, index + (k - lo) / 16, (k - lo) % 16))
              else old(data[k])
  {
    hide CounterBlock, Xor;
    var offset, blocks := 0, 0;
    while offset < hi - lo
      invariant 0 <= offset <= hi - lo
      invariant offset == 16 * blocks || offset == hi - lo
      invariant blocks == BlocksIn(offset)
      invariant counter[..] == CounterBlock(iv + index + blocks)
      invariant forall k | 0 <= k < data.Length :: data[k] ==
                  if lo <= k < lo + offset
                  then Xor(old(data[k]), KeyByte(cipher, iv, index + (k - lo) / 16, (k - lo) % 16)) else old(data[k])
    {
      var block := cipher(counter[..]);
      var n := if hi - lo - offset < 16 then hi - lo - offset else 16;
      XorBlock(block, data, lo + offset, n);
      InBlock(offset, blocks, n);
      offset := offset + n;
      IncBe128(counter);
      blocks := blocks + 1;
    }
  }

  lemma InBlock(offset: nat, blocks: nat, n: nat)
    requires offset == 16 * blocks && n <= 16
    ensures n > 0 ==> BlocksIn(offset + n) == blocks + 1
  {
  }

  method XorBlock(block: Block, data: array<Byte>, lo: nat, n: nat)
    requires lo + n <= data.Length && n <= 16
    modifies data
    ensures forall k | 0 <= k < data.Length ::
              data[k] == if lo <= k < lo + n then Xor(old(data[k]), block[k - lo]) else old(data[k])
  {
    hide Xor;
    for i := 0 to n
      invariant forall k | 0 <= k < data.Length ::
                  data[k] == if lo <= k < lo + i then Xor(old(data[k]), block[k - lo]) else old(data[k])
    {
      data[lo + i] := Xor(data[lo + i], block[i]);
    }
  }

  // ---- Subsamples ----

  function Span(sub: Subsample): nat
  {
    sub.clear + sub.protected
  }

  /** Where the subsamples that fit end: the first one that reaches past the data stops the walk. */
  function FitEnd(subs: seq<Subsample>, pos: nat, length: nat): nat
  {
    if subs == [] || pos + Span(subs[0]) > length then pos else FitEnd(subs[1..], pos + Span(subs[0]), length)
  }

  predicate AllFit(subs: seq<Subsample>, pos: nat, length: nat)
  {
    subs == [] || (pos + Span(subs[0]) <= length && AllFit(subs[1..], pos + Span(subs[0]), length))
  }

  datatype KeyPlace = Clear | Protected(index: nat, offset: nat)

  /** Which key-stream byte covers position `k`, if any, when `subs` start at `pos` and `index` blocks are used up. */
  function PlaceOf(subs: seq<Subsample>, pos: nat, index: nat, k: nat): (r: KeyPlace)
    ensures r.Protected? ==> r.offset < 16
  {
    if subs == [] then Clear
    else
      var from := pos + subs[0].clear;
      if k < from then Clear
      else if k < from + subs[0].protected then Protected(index + (k - from) / 16, (k - from) % 16)
      else PlaceOf(subs[1..], from + subs[0].protected, index + BlocksIn(subs[0].protected), k)
  }

  /** An empty list stands for a single range over everything, all of it protected. */
  function Effective(subs: seq<Subsample>, length: nat): seq<Subsample>
  {
    if subs == [] then [Subsample(0, length)] else subs
  }

  function Masked(cipher: Cipher, iv: nat, place: KeyPlace, b: Byte): Byte
    requires place.Protected? ==> place.offset < 16
  {
    match place case Clear => b case Protected(index, offset) => Xor(b, KeyByte(cipher, iv, index, offset))
  }

  /** What the sample becomes: masked as far as the subsamples fit, untouched after. */
  function Applied(cipher: Cipher, iv: nat, subs: seq<Subsample>, data: seq<Byte>): (r: seq<Byte>)
    ensures |r| == |data|
  {
    var all := Effective(subs, |data|);
    seq(|data|, k requires 0 <= k < |data| =>
      if k < FitEnd(all, 0, |data|) then Masked(cipher, iv, PlaceOf(all, 0, 0, k), data[k]) else data[k])
  }

  /** Encrypts or decrypts in place; an overflowing subsample ends the work there, after what came before it. */
  method ApplyCenc(cipher: Cipher, iv: Block, patternCrypt: Byte, data: array<Byte>, subs: seq<Subsample>)
    returns (r: Result<(), CryptoError>)
    modifies data
    ensures r == if patternCrypt != 0 then Err(InvalidPattern)
                 else if AllFit(subs, 0, data.Length) then Ok(()) else Err(SubsampleOverflow)
    ensures data[..] ==
              if patternCrypt != 0 then old(data[..]) else Applied(cipher, FromBigEndian(iv), subs, old(data[..]))
  {
    hide Xor, CounterBlock, KeyByte, Masked, FromBigEndian;
    if patternCrypt != 0 {
      return Err(InvalidPattern);
    }
    var counter := new Byte[16](i requires 0 <= i < 16 => iv[i]);
    ghost var start := FromBigEndian(iv);
    assert counter[..] == iv;
    IvIsCounter(iv);
    if |subs| == 0 {
      XorCtr(cipher, counter, data, 0, data.Length, start, 0);
      WholeRange(cipher, start, old(data[..]), data[..]);
      return Ok(());
    }
    r := WalkSubsamples(cipher, counter, data, subs, start);
  }

  method WalkSubsamples(cipher: Cipher, counter: array<Byte>, data: array<Byte>, subs: seq<Subsample>, ghost start: nat)
    returns (r: Result<(), CryptoError>)
    requires counter.Length == 16 && counter != data && counter[..] == CounterBlock(start) && subs != []
    modifies data, counter
    ensures r == if AllFit(subs, 0, data.Length) then Ok(()) else Err(SubsampleOverflow)
    ensures data[..] == Applied(cipher, start, subs, old(data[..]))
  {
    hide Xor, CounterBlock, KeyByte, Walked, Applied, BlocksIn;
    var pos: nat := 0;
    ghost var index: nat, was := 0, data[..];
    WalkStarts(cipher, start, subs, was);
    for i := 0 to |subs|
      invariant pos <= data.Length && counter[..] == CounterBlock(start + index)
      invariant Walked(cipher, start, subs, i, pos, index, was, data[..])
    {
      ghost var mid := data[..];
      var endClear := pos + subs[i].clear;
      var endProt := endClear + subs[i].protected;
      if endProt > data.Length {
        WalkStops(cipher, start, subs, i, pos, index, was, mid);
        return Err(SubsampleOverflow);
      }
      if subs[i].protected > 0 {
        XorCtr(cipher, counter, data, endClear, endProt, start, index);
      } else {
        NoBlocksIn();
      }
      WalkStep(cipher, start, subs, i, pos, index, was, mid, data[..]);
      pos := endProt;
      index := index + BlocksIn(subs[i].protected);
    }
    WalkStops(cipher, start, subs, |subs|, pos, index, was, data[..]);
    return Ok(());
  }

  /** After `i` subsamples, up to `pos` and `index` blocks on: what is done, and how the rest is still to be placed. */
  ghost predicate Walked(
    cipher: Cipher, start: nat, subs: seq<Subsample>, i: nat, pos: nat, index: nat, was: seq<Byte>, now: seq<Byte>)
  {
    && i <= |subs| && pos <= |was| && |now| == |was|
    && FitEnd(subs, 0, |was|) == FitEnd(subs[i..], pos, |was|)
    && AllFit(subs, 0, |was|) == AllFit(subs[i..], pos, |was|)
    && (forall k: nat | k >= pos :: PlaceOf(subs, 0, 0, k) == PlaceOf(subs[i..], pos, index, k))
    && (forall k | 0 <= k < pos :: now[k] == Masked(cipher, start, PlaceOf(subs, 0, 0, k), was[k]))
    && (forall k | pos <= k < |was| :: now[k] == was[k])
  }

  lemma NoBlocksIn()
    ensures BlocksIn(0) == 0
  {
  }

  lemma WalkStarts(cipher: Cipher, start: nat, subs: seq<Subsample>, was: seq<Byte>)
    ensures Walked(cipher, start, subs, 0, 0, 0, was, was)
  {
    hide PlaceOf, FitEnd, AllFit, Masked;
    assert subs[0..] == subs;
  }

  lemma WalkStep(cipher: Cipher, start: nat, subs: seq<Subsample>, i: nat, pos: nat, index: nat, was: seq<Byte>,
    mid: seq<Byte>, now: seq<Byte>)
    requires Walked(cipher, start, subs, i, pos, index, was, mid) && i < |subs| && pos + Span(subs[i]) <= |was|
             && |now| == |was|
    requires var lo, hi := pos + subs[i].clear, pos + Span(subs[i]);
             forall k | 0 <= k < |was| :: now[k] ==
               if lo <= k < hi then Xor(mid[k], KeyByte(cipher, start, index + (k - lo) / 16, (k - lo) % 16))
               else mid[k]
    ensures Walked(cipher, start, subs, i + 1, pos + Span(subs[i]), index + BlocksIn(subs[i].protected), was, now)
  {
    hide Xor, KeyByte, BlocksIn, FitEnd, AllFit, PlaceOf;
    var left, next := subs[i..], pos + Span(subs[i]);
    assert left[1..] == subs[i + 1..] && left[0] == subs[i];
    FitsOn(left, pos, |was|);
    PlacesOn(left, pos, index);
    forall k | pos <= k < next
      ensures now[k] == Masked(cipher, start, PlaceOf(subs, 0, 0, k), was[k])
    {
      assert PlaceOf(subs, 0, 0, k) == PlaceOf(left, pos, index, k);
    }
  }

  lemma FitsOn(subs: seq<Subsample>, pos: nat, length: nat)
    requires subs != [] && pos + Span(subs[0]) <= length
    ensures FitEnd(subs, pos, length) == FitEnd(subs[1..], pos + Span(subs[0]), length)
    ensures AllFit(subs, pos, length) == AllFit(subs[1..], pos + Span(subs[0]), length)
  {
  }

  lemma PlacesOn(subs: seq<Subsample>, pos: nat, index: nat)
    requires subs != []
    ensures var lo, next := pos + subs[0].clear, pos + Span(subs[0]);
            && (forall k: nat | k < lo :: PlaceOf(subs, pos, index, k) == Clear)
            && (forall k: nat | lo <= k < next ::
                  PlaceOf(subs, pos, index, k) == Protected(index + (k - lo) / 16, (k - lo) % 16))
            && (forall k: nat | k >= next ::
                  PlaceOf(subs, pos, index, k) == PlaceOf(subs[1..], next, index + BlocksIn(subs[0].protected), k))
  {
    hide BlocksIn;
  }

  lemma WalkStops(
    cipher: Cipher, start: nat, subs: seq<Subsample>, i: nat, pos: nat, index: nat, was: seq<Byte>, now: seq<Byte>)
    requires Walked(cipher, start, subs, i, pos, index, was, now) && subs != []
    requires i < |subs| ==> pos + Span(subs[i]) > |was|
    ensures AllFit(subs, 0, |was|) == (i == |subs|) && now == Applied(cipher, start, subs, was)
  {
    hide PlaceOf, Masked;
    assert FitEnd(subs[i..], pos, |was|) == pos;
  }

  lemma IvIsCounter(iv: Block)
    ensures CounterBlock(FromBigEndian(iv)) == iv
  {
    hide BigEndian, FromBigEndian, Pow256;
    LimitIsPower();
    FromBigEndianBound(iv);
    BigEndianRoundTrip(FromBigEndian(iv), 16);
    SameNumberSameBytes(CounterBlock(FromBigEndian(iv)), iv);
  }

  lemma WholeRange(cipher: Cipher, iv: nat, before: seq<Byte>, after: seq<Byte>)
    requires |after| == |before|
    requires forall k | 0 <= k < |before| :: after[k] == Xor(before[k], KeyByte(cipher, iv, k / 16, k % 16))
    ensures after == Applied(cipher, iv, [], before)
  {
    hide Xor, KeyByte;
    var all := Effective([], |before|);
    assert all[1..] == [];
    assert FitEnd(all, 0, |before|) == |before|;
  }

  // ---- What the masks mean ----

  function CarryTimes(s: seq<Byte>, times: nat): (r: seq<Byte>)
    ensures |r| == |s|
  {
    if times == 0 then s else Carry(CarryTimes(s, times - 1))
  }

  /** After `times` increments the byte counter holds iv + times, modulo 2 to the 128. */
  lemma {:induction false} CounterAfter(iv: Block, times: nat)
    ensures CarryTimes(iv, times) == CounterBlock(FromBigEndian(iv) + times)
  {
    hide CounterBlock, FromBigEndian, Carry;
    if times == 0 {
      IvIsCounter(iv);
    } else {
      CounterAfter(iv, times - 1);
      CarryIsNext(FromBigEndian(iv) + times - 1);
    }
  }

  function StartOf(subs: seq<Subsample>, j: nat): nat
    requires j <= |subs|
  {
    if j == 0 then 0 else StartOf(subs, j - 1) + (subs[j - 1].clear + subs[j - 1].protected)
  }

  /** Key-stream blocks used up by the protected ranges before the `j`-th: partial blocks count as whole ones. */
  function BlocksBefore(subs: seq<Subsample>, j: nat): nat
    requires j <= |subs|
  {
    if j == 0 then 0 else BlocksBefore(subs, j - 1) + (subs[j - 1].protected + 15) / 16
  }

  lemma {:induction false} PlaceFromSubsample(subs: seq<Subsample>, j: nat, k: nat)
    requires j <= |subs| && StartOf(subs, j) <= k
    ensures PlaceOf(subs, 0, 0, k) == PlaceOf(subs[j..], StartOf(subs, j), BlocksBefore(subs, j), k)
  {
    hide PlaceOf;
    if j == 0 {
      assert subs[0..] == subs;
    } else {
      PlaceFromSubsample(subs, j - 1, k);
      assert subs[j - 1..][1..] == subs[j..];
      PlacesOn(subs[j - 1..], StartOf(subs, j - 1), BlocksBefore(subs, j - 1));
    }
  }

  /**
   The byte at `offset` of the `j`-th protected range takes the key-stream block numbered by all blocks of earlier
   protected ranges plus its own offset over 16; bytes of clear ranges take none.
   */
  lemma {:induction false} PlaceInRange(subs: seq<Subsample>, j: nat, offset: nat)
    requires j < |subs|
    ensures offset < subs[j].protected ==>
              PlaceOf(subs, 0, 0, StartOf(subs, j) + subs[j].clear + offset)
              == Protected(BlocksBefore(subs, j) + offset / 16, offset % 16)
    ensures offset < subs[j].clear ==> PlaceOf(subs, 0, 0, StartOf(subs, j) + offset) == Clear
  {
    PlaceFromSubsample(subs, j, StartOf(subs, j) + subs[j].clear + offset);
    PlaceFromSubsample(subs, j, StartOf(subs, j) + offset);
  }

  // ---- Byte by byte ----

  /** The bit of weight 2 to the `i`. */
  function BitAt(v: nat, i: nat): nat
  {
    if i == 0 then v % 2 else BitAt(v / 2, i - 1)
  }

  lemma {:induction false} BitOfXor(a: nat, b: nat, bits: nat, i: nat)
    requires i < bits
    ensures BitAt(XorBits(a, b, bits), i) == if BitAt(a, i) == BitAt(b, i) then 0 else 1
  {
    assert XorBits(a, b, bits) / 2 == XorBits(a / 2, b / 2, bits - 1);
    if i > 0 {
      BitOfXor(a / 2, b / 2, bits - 1, i - 1);
    }
  }

  /** A bit of the exclusive or is set exactly where the two bytes differ. */
  lemma {:induction false} XorIsBitwise(a: Byte, b: Byte, i: nat)
    requires i < 8
    ensures BitAt(Xor(a, b), i) == if BitAt(a, i) == BitAt(b, i) then 0 else 1
  {
    BitOfXor(a, b, 8, i);
  }

  lemma {:induction false} StartsGrow(subs: seq<Subsample>, i: nat, j: nat)
    requires i <= j <= |subs|
    ensures StartOf(subs, i) <= StartOf(subs, j)
  {
    if i < j {
      StartsGrow(subs, i, j - 1);
    }
  }

  lemma {:induction false} FitsUpTo(subs: seq<Subsample>, j: nat, length: nat)
    requires j <= |subs| && StartOf(subs, j) <= length
    ensures FitEnd(subs, 0, length) == FitEnd(subs[j..], StartOf(subs, j), length)
    ensures AllFit(subs, 0, length) == AllFit(subs[j..], StartOf(subs, j), length)
  {
    hide FitEnd, AllFit;
    if j == 0 {
      assert subs[0..] == subs;
    } else {
      FitsUpTo(subs, j - 1, length);
      assert subs[j - 1..][1..] == subs[j..];
      FitsOn(subs[j - 1..], StartOf(subs, j - 1), length);
    }
  }

  /** A sample is refused exactly when its subsamples together are longer than it. */
  lemma {:induction false} FitsIffTotalFits(subs: seq<Subsample>, length: nat)
    ensures AllFit(subs, 0, length) <==> StartOf(subs, |subs|) <= length
  {
    if StartOf(subs, |subs|) <= length {
      FitsUpTo(subs, |subs|, length);
    } else {
      Overflows(subs, |subs|, length);
    }
  }

  lemma {:induction false} Overflows(subs: seq<Subsample>, j: nat, length: nat)
    requires j <= |subs| && StartOf(subs, j) > length
    ensures !AllFit(subs, 0, length)
  {
    if StartOf(subs, j - 1) > length {
      Overflows(subs, j - 1, length);
    } else {
      FitsUpTo(subs, j - 1, length);
    }
  }

  lemma KeyByteIs(cipher: Cipher, iv: Block, index: nat, offset: nat)
    requires offset < 16
    ensures KeyByte(cipher, FromBigEndian(iv), index, offset) == cipher(CarryTimes(iv, index))[offset]
  {
    hide CounterBlock, FromBigEndian, CarryTimes;
    CounterAfter(iv, index);
  }

  /**
   The byte at `offset` of a protected range that fits is masked by one byte of the cipher of the initial counter, as
   often incremented as there were blocks, whole or begun, in the ranges before and in this one before the byte. A clear
   range that fits stays as it is.
   */
  lemma {:induction false} MaskedByCounter(
    cipher: Cipher, iv: Block, subs: seq<Subsample>, data: seq<Byte>, j: nat, offset: nat)
    requires j < |subs| && StartOf(subs, j + 1) <= |data|
    ensures offset < subs[j].protected ==>
              var k := StartOf(subs, j) + subs[j].clear + offset;
              Applied(cipher, FromBigEndian(iv), subs, data)[k]
              == Xor(data[k], cipher(CarryTimes(iv, BlocksBefore(subs, j) + offset / 16))[offset % 16])
    ensures offset < subs[j].clear ==>
              var k := StartOf(subs, j) + offset;
              Applied(cipher, FromBigEndian(iv), subs, data)[k] == data[k]
  {
    hide Xor, KeyByte, FromBigEndian, PlaceOf, BlocksBefore, CarryTimes, FitEnd;
    FitsUpTo(subs, j + 1, |data|);
    FitEndGrows(subs[j + 1..], StartOf(subs, j + 1), |data|);
    PlaceInRange(subs, j, offset);
    KeyByteIs(cipher, iv, BlocksBefore(subs, j) + offset / 16, offset % 16);
  }

  /** From the first subsample that does not fit on, or else after the last, the sample is untouched. */
  lemma {:induction false} RestUntouched(
    cipher: Cipher, iv: Block, subs: seq<Subsample>, data: seq<Byte>, j: nat, k: nat)
    requires subs != [] && j <= |subs| && (j < |subs| ==> StartOf(subs, j + 1) > |data|)
    requires StartOf(subs, j) <= k < |data|
    ensures Applied(cipher, FromBigEndian(iv), subs, data)[k] == data[k]
  {
    hide Xor, KeyByte, FromBigEndian, PlaceOf;
    FitsUpTo(subs, j, |data|);
  }

  /** Without subsamples the whole sample is one protected range. */
  lemma {:induction false} WholeSampleMasked(cipher: Cipher, iv: Block, data: seq<Byte>, k: nat)
    requires k < |data|
    ensures Applied(cipher, FromBigEndian(iv), [], data)[k] == Xor(data[k], cipher(CarryTimes(iv, k / 16))[k % 16])
  {
    hide Xor, KeyByte, FromBigEndian, CarryTimes;
    var all := [Subsample(0, |data|)];
    assert all[1..] == [];
    assert FitEnd(all, 0, |data|) == |data|;
    assert PlaceOf(all, 0, 0, k) == Protected(k / 16, k % 16);
    KeyByteIs(cipher, iv, k / 16, k % 16);
  }

  /** The same work twice restores the sample: decryption undoes encryption, even where subsamples overflow. */
  lemma {:induction false} DecryptUndoesEncrypt(cipher: Cipher, iv: nat, subs: seq<Subsample>, data: seq<Byte>)
    ensures Applied(cipher, iv, subs, Applied(cipher, iv, subs, data)) == data
  {
    hide Xor, KeyByte;
    var once := Applied(cipher, iv, subs, data);
    var all := Effective(subs, |data|);
    forall k | 0 <= k < |data|
      ensures Applied(cipher, iv, subs, once)[k] == data[k]
    {
      var place := PlaceOf(all, 0, 0, k);
      if place.Protected? {
        XorTwice(data[k], KeyByte(cipher, iv, place.index, place.offset));
      }
    }
  }

  /** Clear bytes and bytes after the last fitting subsample stay as they were. */
  lemma {:induction false} ClearBytesUntouched(cipher: Cipher, iv: nat, subs: seq<Subsample>, data: seq<Byte>, k: nat)
    requires k < |data| && subs != []
    requires FitEnd(subs, 0, |data|) <= k || exists j: nat, offset: nat :: InClear(subs, j, offset, k)
    ensures Applied(cipher, iv, subs, data)[k] == data[k]
  {
    hide Xor, KeyByte;
    if k < FitEnd(subs, 0, |data|) {
      var j: nat, offset: nat :| InClear(subs, j, offset, k);
      PlaceInRange(subs, j, offset);
    }
  }

  predicate InClear(subs: seq<Subsample>, j: nat, offset: nat, k: nat)
  {
    j < |subs| && offset < subs[j].clear && k == StartOf(subs, j) + offset
  }

  // ---- Scatter and gather ----

  /** The protected bytes, one range after another. */
  function Gather(subs: seq<Subsample>, pos: nat, data: seq<Byte>): seq<Byte>
    requires AllFit(subs, pos, |data|)
    decreases |subs|
  {
    if subs == [] then []
    else data[pos + subs[0].clear..pos + Span(subs[0])] + Gather(subs[1..], pos + Span(subs[0]), data)
  }

  function ProtectedTotal(subs: seq<Subsample>): nat
  {
    if subs == [] then 0 else subs[0].protected + ProtectedTotal(subs[1..])
  }

  /** `data` from `pos` on, with the bytes of `stream` put in place of the protected ones. */
  function Scatter(subs: seq<Subsample>, pos: nat, data: seq<Byte>, stream: seq<Byte>): (r: seq<Byte>)
    requires AllFit(subs, pos, |data|) && pos <= |data| && |stream| == ProtectedTotal(subs)
    ensures |r| == |data| - pos
    decreases |subs|
  {
    if subs == [] then data[pos..]
    else
      var n := subs[0].protected;
      data[pos..pos + subs[0].clear] + stream[..n] + Scatter(subs[1..], pos + Span(subs[0]), data, stream[n..])
  }

  /** One continuous counter-mode pass, `index` blocks into the key stream. */
  function Continuous(cipher: Cipher, iv: nat, index: nat, stream: seq<Byte>): (r: seq<Byte>)
    ensures |r| == |stream|
  {
    seq<Byte>(|stream|, k requires 0 <= k < |stream| => Xor(stream[k], KeyByte(cipher, iv, index + k / 16, k % 16)))
  }

  /** Every protected range but the last is a whole number of blocks. */
  predicate WholeBlocks(subs: seq<Subsample>)
  {
    forall i | 0 <= i < |subs| - 1 :: subs[i].protected % 16 == 0
  }

  /** The masked sample from `pos` on. */
  function AppliedFrom(
    cipher: Cipher, iv: nat, subs: seq<Subsample>, pos: nat, index: nat, data: seq<Byte>): (r: seq<Byte>)
    requires pos <= |data|
    ensures |r| == |data| - pos
  {
    seq<Byte>(|data| - pos,
      k requires 0 <= k < |data| - pos => Masked(cipher, iv, PlaceOf(subs, pos, index, pos + k), data[pos + k]))
  }

  lemma {:induction false} GatherLength(subs: seq<Subsample>, pos: nat, data: seq<Byte>)
    requires AllFit(subs, pos, |data|)
    ensures |Gather(subs, pos, data)| == ProtectedTotal(subs)
    decreases |subs|
  {
    if subs != [] {
      GatherLength(subs[1..], pos + Span(subs[0]), data);
    }
  }

  /** A pass over two streams, the first of whole blocks, is a pass over each. */
  lemma ContinuousSplits(cipher: Cipher, iv: nat, index: nat, a: seq<Byte>, b: seq<Byte>)
    requires |a| % 16 == 0 || b == []
    ensures Continuous(cipher, iv, index, a + b)
            == Continuous(cipher, iv, index, a) + Continuous(cipher, iv, index + BlocksIn(|a|), b)
  {
    hide Xor, KeyByte;
    forall k | 0 <= k < |b|
      ensures b != [] ==> index + (|a| + k) / 16 == index + BlocksIn(|a|) + k / 16 && (|a| + k) % 16 == k % 16
    {
      WholeBlockShift(|a|, k);
    }
  }

  lemma WholeBlockShift(n: nat, k: nat)
    requires n % 16 == 0
    ensures (n + k) / 16 == BlocksIn(n) + k / 16 && (n + k) % 16 == k % 16
  {
  }

  lemma {:induction false} ScatterFrom(
    cipher: Cipher, iv: nat, subs: seq<Subsample>, pos: nat, index: nat, data: seq<Byte>)
    requires AllFit(subs, pos, |data|) && pos <= |data| && WholeBlocks(subs)
    ensures |Gather(subs, pos, data)| == ProtectedTotal(subs)
    ensures Scatter(subs, pos, data, Continuous(cipher, iv, index, Gather(subs, pos, data)))
            == AppliedFrom(cipher, iv, subs, pos, index, data)
    decreases |subs|
  {
    hide Continuous, AppliedFrom, Scatter, Gather, BlocksIn;
    GatherLength(subs, pos, data);
    if subs == [] {
      NothingLeft(cipher, iv, pos, index, data);
      NothingScattered(cipher, iv, index, pos, data);
    } else {
      var n, next, used := subs[0].protected, pos + Span(subs[0]), index + BlocksIn(subs[0].protected);
      var first, rest := data[pos + subs[0].clear..next], Gather(subs[1..], next, data);
      GatherFirst(subs, pos, data);
      GatherLength(subs[1..], next, data);
      ContinuousSplits(cipher, iv, index, first, rest);
      var stream := Continuous(cipher, iv, index, first + rest);
      assert stream[..n] == Continuous(cipher, iv, index, first);
      assert stream[n..] == Continuous(cipher, iv, used, rest);
      ScatterFirst(subs, pos, data, stream);
      ScatterFrom(cipher, iv, subs[1..], next, used, data);
      FirstRange(cipher, iv, subs, pos, index, data);
    }
  }

  lemma GatherFirst(subs: seq<Subsample>, pos: nat, data: seq<Byte>)
    requires subs != [] && AllFit(subs, pos, |data|) && pos <= |data|
    ensures var next := pos + Span(subs[0]);
            Gather(subs, pos, data) == data[pos + subs[0].clear..next] + Gather(subs[1..], next, data)
    ensures |subs| == 1 ==> Gather(subs[1..], pos + Span(subs[0]), data) == []
  {
  }

  lemma NothingScattered(cipher: Cipher, iv: nat, index: nat, pos: nat, data: seq<Byte>)
    requires pos <= |data|
    ensures Gather([], pos, data) == [] && Scatter([], pos, data, []) == data[pos..]
    ensures Continuous(cipher, iv, index, []) == []
  {
  }

  lemma ScatterFirst(subs: seq<Subsample>, pos: nat, data: seq<Byte>, stream: seq<Byte>)
    requires subs != [] && AllFit(subs, pos, |data|) && pos <= |data| && |stream| == ProtectedTotal(subs)
    ensures var n, from, next := subs[0].protected, pos + subs[0].clear, pos + Span(subs[0]);
            Scatter(subs, pos, data, stream)
                == data[pos..from] + stream[..n] + Scatter(subs[1..], next, data, stream[n..])
  {
  }

  lemma NothingLeft(cipher: Cipher, iv: nat, pos: nat, index: nat, data: seq<Byte>)
    requires pos <= |data|
    ensures AppliedFrom(cipher, iv, [], pos, index, data) == data[pos..]
  {
    hide Xor, KeyByte;
    var left, right := AppliedFrom(cipher, iv, [], pos, index, data), data[pos..];
    forall k | 0 <= k < |data| - pos
      ensures left[k] == right[k]
    {
      assert left[k] == Masked(cipher, iv, PlaceOf([], pos, index, pos + k), data[pos + k]);
    }
  }

  lemma FirstRange(cipher: Cipher, iv: nat, subs: seq<Subsample>, pos: nat, index: nat, data: seq<Byte>)
    requires subs != [] && pos + Span(subs[0]) <= |data|
    ensures var from, next := pos + subs[0].clear, pos + Span(subs[0]);
            AppliedFrom(cipher, iv, subs, pos, index, data)
            == data[pos..from] + Continuous(cipher, iv, index, data[from..next])
               + AppliedFrom(cipher, iv, subs[1..], next, index + BlocksIn(subs[0].protected), data)
  {
    hide Xor, KeyByte;
    var from, next, used := pos + subs[0].clear, pos + Span(subs[0]), index + BlocksIn(subs[0].protected);
    var left := AppliedFrom(cipher, iv, subs, pos, index, data);
    var middle := Continuous(cipher, iv, index, data[from..next]);
    var last := AppliedFrom(cipher, iv, subs[1..], next, used, data);
    var right := data[pos..from] + middle + last;
    forall k | 0 <= k < |data| - pos
      ensures left[k] == right[k]
    {
      var place := PlaceOf(subs, pos, index, pos + k);
      assert left[k] == Masked(cipher, iv, place, data[pos + k]);
      if pos + k < from {
        assert right[k] == data[pos..from][k];
      } else if pos + k < next {
        assert right[k] == middle[pos + k - from];
        assert data[from..next][pos + k - from] == data[pos + k];
      } else {
        assert right[k] == last[pos + k - next];
      }
    }
  }

  lemma {:induction false} FitEndOfAll(subs: seq<Subsample>, pos: nat, index: nat, length: nat, k: nat)
    requires AllFit(subs, pos, length) && pos <= length && k < length
    ensures k >= FitEnd(subs, pos, length) ==> PlaceOf(subs, pos, index, k) == Clear
    decreases |subs|
  {
    if subs != [] {
      FitEndGrows(subs[1..], pos + Span(subs[0]), length);
      FitEndOfAll(subs[1..], pos + Span(subs[0]), index + BlocksIn(subs[0].protected), length, k);
    }
  }

  lemma {:induction false} FitEndGrows(subs: seq<Subsample>, pos: nat, length: nat)
    ensures FitEnd(subs, pos, length) >= pos
    decreases |subs|
  {
    if subs != [] && pos + Span(subs[0]) <= length {
      FitEndGrows(subs[1..], pos + Span(subs[0]), length);
    }
  }

  /**
   When every protected range but the last is a whole number of blocks, the sample becomes one continuous pass over its
   gathered protected bytes, scattered back.
   */
  lemma {:induction false} ScatterGather(cipher: Cipher, iv: nat, subs: seq<Subsample>, data: seq<Byte>)
    requires subs != [] && AllFit(subs, 0, |data|) && WholeBlocks(subs)
    ensures |Gather(subs, 0, data)| == ProtectedTotal(subs)
    ensures Applied(cipher, iv, subs, data) == Scatter(subs, 0, data, Continuous(cipher, iv, 0, Gather(subs, 0, data)))
  {
    hide Xor, KeyByte, Scatter, Gather;
    ScatterFrom(cipher, iv, subs, 0, 0, data);
    forall k | 0 <= k < |data|
      ensures Applied(cipher, iv, subs, data)[k] == AppliedFrom(cipher, iv, subs, 0, 0, data)[k]
    {
      FitEndOfAll(subs, 0, 0, |data|, k);
    }
  }

  // ---- Initialization vectors ----

  function IvFrom8(iv8: seq<Byte>): Block
    requires |iv8| == 8
  {
    iv8 + [0, 0, 0, 0, 0, 0, 0, 0]
  }

  /** Short IVs leave half the counter free: for the first 2 to the 64 blocks the upper half does not change. */
  lemma ShortIvCounts(iv8: seq<Byte>, blocks: nat)
    requires |iv8| == 8 && blocks < 0x1_0000_0000_0000_0000
    ensures CarryTimes(IvFrom8(iv8), blocks) == iv8 + BigEndian(blocks, 8)
  {
    hide BigEndian, FromBigEndian, Carry, CounterBlock, CarryTimes;
    var iv := IvFrom8(iv8);
    CounterAfter(iv, blocks);
    JoinHalves(iv8, 0);
    JoinHalves(iv8, blocks);
    assert BigEndian(0, 8) == [0, 0, 0, 0, 0, 0, 0, 0] by { ZeroBytes(); }
    CounterOfJoined(iv8, blocks);
  }

  lemma ZeroBytes()
    ensures BigEndian(0, 8) == [0, 0, 0, 0, 0, 0, 0, 0]
  {
    assert BigEndian(0, 4) == [0, 0, 0, 0];
  }

  lemma {:induction false} FromBigEndianJoin(a: seq<Byte>, b: seq<Byte>)
    ensures FromBigEndian(a + b) == FromBigEndian(a) * Pow256(|b|) + FromBigEndian(b)
  {
    if b == [] {
      assert a + b == a;
    } else {
      var front := b[..|b| - 1];
      assert (a + b)[..|a + b| - 1] == a + front;
      FromBigEndianJoin(a, front);
      NextPlace(FromBigEndian(a), Pow256(|front|), FromBigEndian(front));
    }
  }

  lemma NextPlace(x: nat, p: nat, low: nat)
    ensures (x * p + low) * 256 == x * (256 * p) + low * 256
  {
  }

  lemma JoinHalves(iv8: seq<Byte>, low: nat)
    requires |iv8| == 8 && low < 0x1_0000_0000_0000_0000
    ensures FromBigEndian(iv8 + BigEndian(low, 8)) == FromBigEndian(iv8) * 0x1_0000_0000_0000_0000 + low
  {
    hide BigEndian, FromBigEndian;
    assert Pow256(8) == 0x1_0000_0000_0000_0000;
    FromBigEndianJoin(iv8, BigEndian(low, 8));
    BigEndianRoundTrip(low, 8);
  }

  lemma CounterOfJoined(iv8: seq<Byte>, low: nat)
    requires |iv8| == 8 && low < 0x1_0000_0000_0000_0000
    ensures CounterBlock(FromBigEndian(iv8) * 0x1_0000_0000_0000_0000 + low) == iv8 + BigEndian(low, 8)
  {
    hide BigEndian, FromBigEndian, CounterBlock;
    JoinHalves(iv8, low);
    IvIsCounter(iv8 + BigEndian(low, 8));
  }
}
