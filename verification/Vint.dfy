/** EBML variable-length integers: sections 4 and 5 of RFC 8794 (VINT, element ID) and 6.2 (unknown size). */
module Vint {
  import opened Bytes

  datatype VintSize = VintSize(value: nat, unknown: bool)

  datatype VintError = Incomplete | ReservedVint | Unsupported

  /** 2 to the power `7 * len`: one more than the all-ones data pattern, and the marker bit, of a `len`-byte VINT. */
  function DataLimit(len: nat): (r: nat)
    requires 1 <= len <= 8
    ensures r >= 0x80
  {
    if len == 1 then 0x80
    else if len == 2 then 0x4000
    else if len == 3 then 0x20_0000
    else if len == 4 then 0x1000_0000
    else if len == 5 then 0x8_0000_0000
    else if len == 6 then 0x400_0000_0000
    else if len == 7 then 0x2_0000_0000_0000
    else 0x100_0000_0000_0000
  }

  /** 2 to the power `8 - len`: the marker bit as it stands in the first byte. */
  function FirstMarker(len: nat): (r: nat)
    requires 1 <= len <= 8
    ensures 1 <= r <= 0x80
  {
    if len == 1 then 0x80
    else if len == 2 then 0x40
    else if len == 3 then 0x20
    else if len == 4 then 0x10
    else if len == 5 then 8
    else if len == 6 then 4
    else if len == 7 then 2
    else 1
  }

  /** Total length from the first byte: its leading zero bits, plus one. A zero byte has no marker. */
  function VintLength(first: Byte): (r: Result<nat, VintError>)
    ensures r.Ok? <==> first != 0
    ensures r.Ok? ==> 1 <= r.value <= 8 && FirstMarker(r.value) <= first < 2 * FirstMarker(r.value)
  {
    if first == 0 then Err(ReservedVint)
    else if first >= 0x80 then Ok(1)
    else if first >= 0x40 then Ok(2)
    else if first >= 0x20 then Ok(3)
    else if first >= 0x10 then Ok(4)
    else if first >= 8 then Ok(5)
    else if first >= 4 then Ok(6)
    else if first >= 2 then Ok(7)
    else Ok(8)
  }

  lemma MarkerPosition(len: nat)
    requires 1 <= len <= 8
    ensures FirstMarker(len) * Pow256(len - 1) == DataLimit(len)
    ensures 2 * DataLimit(len) <= Pow256(len)
  {
    assert Pow256(1) == 0x100;
    assert Pow256(2) == 0x1_0000;
    assert Pow256(3) == 0x100_0000;
    assert Pow256(4) == 0x1_0000_0000;
    assert Pow256(5) == 0x100_0000_0000;
    assert Pow256(6) == 0x1_0000_0000_0000;
    assert Pow256(7) == 0x100_0000_0000_0000;
    assert Pow256(8) == 0x1_0000_0000_0000_0000;
  }

  // ---- What a buffer holds at its start ----

  /** The size a buffer begins with, and its length in bytes: the number they spell, less the marker. */
  function SizeAt(buf: seq<Byte>): (r: Result<(VintSize, nat), VintError>)
    ensures r.Ok? ==> 1 <= r.value.1 <= 8 && r.value.1 <= |buf| && r.value.0.value < DataLimit(r.value.1)
  {
    if buf == [] then Err(Incomplete)
    else match VintLength(buf[0])
      case Err(e) => Err(e)
      case Ok(len) =>
        if |buf| < len then Err(Incomplete)
        else
          var v := FromBigEndian(buf[..len]) % DataLimit(len);
          Ok((VintSize(v, v == DataLimit(len) - 1), len))
  }

  /** The ID a buffer begins with, and its length: here the marker belongs to the number. */
  function IdAt(buf: seq<Byte>): (r: Result<(nat, nat), VintError>)
    ensures r.Ok? ==> 1 <= r.value.1 <= 4 && r.value.1 <= |buf|
  {
    if buf == [] then Err(Incomplete)
    else match VintLength(buf[0])
      case Err(e) => Err(e)
      case Ok(len) =>
        if len > 4 then Err(Unsupported)
        else if |buf| < len then Err(Incomplete)
        else Ok((FromBigEndian(buf[..len]), len))
  }

  /** The first `i` bytes spell the marker followed by `value`. */
  ghost predicate Spells(buf: seq<Byte>, len: nat, i: nat, value: nat)
    requires 1 <= i <= len <= 8 && len <= |buf|
  {
    var marker := FirstMarker(len) * Pow256(i - 1);
    FromBigEndian(buf[..i]) == marker + value && value < marker
  }

  lemma FirstDigit(buf: seq<Byte>, len: nat)
    requires 1 <= len <= |buf| && VintLength(buf[0]) == Ok(len)
    ensures Spells(buf, len, 1, buf[0] % FirstMarker(len))
  {
    assert buf[..1][..0] == [];
    DivUnique(buf[0], FirstMarker(len), 1, buf[0] - FirstMarker(len));
  }

  lemma NextDigit(buf: seq<Byte>, len: nat, i: nat, value: nat)
    requires 1 <= i < len <= 8 && len <= |buf| && Spells(buf, len, i, value)
    ensures Spells(buf, len, i + 1, value * 256 + buf[i])
  {
    hide FirstMarker;
    assert buf[..i + 1][..i] == buf[..i];
    assert FirstMarker(len) * Pow256(i) == 256 * (FirstMarker(len) * Pow256(i - 1));
  }

  lemma AllDigits(buf: seq<Byte>, len: nat, value: nat)
    requires 1 <= len <= 8 && len <= |buf| && Spells(buf, len, len, value)
    ensures FromBigEndian(buf[..len]) % DataLimit(len) == value
  {
    hide FirstMarker, FromBigEndian, DataLimit;
    MarkerPosition(len);
    DivUnique(FromBigEndian(buf[..len]), DataLimit(len), 1, value);
  }

  method DecodeSize(buf: seq<Byte>) returns (r: Result<(VintSize, nat), VintError>)
    ensures r == SizeAt(buf)
  {
    hide Spells, FirstMarker, DataLimit, FromBigEndian;
    if |buf| == 0 {
      return Err(Incomplete);
    }
    var length := VintLength(buf[0]);
    if length.Err? {
      return Err(length.error);
    }
    var len := length.value;
    if |buf| < len {
      return Err(Incomplete);
    }
    var value: nat := buf[0] % FirstMarker(len);
    FirstDigit(buf, len);
    var i := 1;
    while i < len
      invariant 1 <= i <= len
      invariant Spells(buf, len, i, value)
    {
      NextDigit(buf, len, i, value);
      value := value * 256 + buf[i];
      i := i + 1;
    }
    AllDigits(buf, len, value);
    return Ok((VintSize(value, value == DataLimit(len) - 1), len));
  }

  method DecodeId(buf: seq<Byte>) returns (r: Result<(nat, nat), VintError>)
    ensures r == IdAt(buf)
  {
    if |buf| == 0 {
      return Err(Incomplete);
    }
    var length := VintLength(buf[0]);
    if length.Err? {
      return Err(length.error);
    }
    var len := length.value;
    if len > 4 {
      return Err(Unsupported);
    }
    if |buf| < len {
      return Err(Incomplete);
    }
    var value: nat := 0;
    for i := 0 to len
      invariant value == FromBigEndian(buf[..i])
    {
      assert buf[..i + 1][..i] == buf[..i];
      value := value * 256 + buf[i];
    }
    return Ok((value, len));
  }

  /** Both decoders keep their answer on every extension of the buffer, once it is not Incomplete. */
  lemma {:induction false} DecodersIgnoreWhatFollows(buf: seq<Byte>, more: seq<Byte>)
    ensures SizeAt(buf) != Err(Incomplete) ==> SizeAt(buf + more) == SizeAt(buf)
    ensures IdAt(buf) != Err(Incomplete) ==> IdAt(buf + more) == IdAt(buf)
  {
    if buf != [] && VintLength(buf[0]).Ok? && VintLength(buf[0]).value <= |buf| {
      var len := VintLength(buf[0]).value;
      assert (buf + more)[..len] == buf[..len];
    }
  }

  // ---- Encoders ----

  /** `value` in `len` bytes, or the largest value that `len` bytes can tell without meaning "unknown". */
  function FixedSizeBytes(value: nat, len: nat): (s: seq<Byte>)
    requires 1 <= len <= 8
    ensures |s| == len
  {
    BigEndian(DataLimit(len) + if value <= DataLimit(len) - 2 then value else DataLimit(len) - 2, len)
  }

  /** The shortest length, from `len` on, at which `value` fits below the all-ones pattern; 8 when none does. */
  function SizeLengthFrom(value: nat, len: nat): (r: nat)
    requires 1 <= len <= 8
    ensures len <= r <= 8
    ensures value < DataLimit(8) - 1 ==> value < DataLimit(r) - 1
    ensures forall k | len <= k < r :: value >= DataLimit(k) - 1
    decreases 8 - len
  {
    if len < 8 && value >= DataLimit(len) - 1 then SizeLengthFrom(value, len + 1) else len
  }

  function SizeBytes(value: nat): (s: seq<Byte>)
    ensures 1 <= |s| <= 8
  {
    FixedSizeBytes(value, SizeLengthFrom(value, 1))
  }

  /** The largest value a size VINT can carry. */
  const MAX_SIZE: nat := 0x100_0000_0000_0000 - 2

  /** Signed deltas below this magnitude fit the longest VINT. */
  const DELTA_LIMIT: int := 0x80_0000_0000_0000

  function IdLength(id: nat): (len: nat)
    ensures 1 <= len <= 4
  {
    if id < 0x100 then 1 else if id < 0x1_0000 then 2 else if id < 0x100_0000 then 3 else 4
  }

  function IdBytes(id: nat): (s: seq<Byte>)
    ensures |s| == IdLength(id)
  {
    BigEndian(id, IdLength(id))
  }

  function UnknownBytes(len: nat): (s: seq<Byte>)
    requires 1 <= len <= 8
    ensures |s| == len
  {
    BigEndian(2 * DataLimit(len) - 1, len)
  }

  function Bias(len: nat): int
    requires 1 <= len <= 8
  {
    DataLimit(len) / 2 - 1
  }

  /** The unsigned stand-in for a delta, summed in 64 bits. */
  function Biased(delta: int, len: nat): (r: int)
    requires 1 <= len <= 8
    ensures -I64_LIMIT <= delta + Bias(len) < I64_LIMIT ==> r == delta + Bias(len)
  {
    AsI64(delta + Bias(len))
  }

  lemma BiasBounds(len: nat)
    requires 1 <= len <= 8
    ensures 0 < Bias(len) <= Bias(8) < DELTA_LIMIT && DataLimit(len) - 2 == 2 * Bias(len)
  {
  }

  lemma LastBias()
    ensures Bias(8) == DELTA_LIMIT - 1
  {
  }

  /** The shortest length, from `len` on, whose bias brings `delta` into the unsigned range; 8 when none does. */
  function DeltaLengthFrom(delta: int, len: nat): (r: nat)
    requires 1 <= len <= 8
    ensures len <= r <= 8
    ensures -Bias(8) <= delta <= Bias(8) ==> -Bias(r) <= delta <= Bias(r)
    ensures forall k | len <= k < r :: !(-Bias(k) <= delta <= Bias(k))
    decreases 8 - len
  {
    if len >= 8 || 0 <= Biased(delta, len) <= DataLimit(len) - 2 then len else DeltaLengthFrom(delta, len + 1)
  }

  lemma NextDeltaLength(delta: int, len: nat)
    requires 1 <= len <= 8
    ensures DeltaLengthFrom(delta, len)
            == if len >= 8 || 0 <= Biased(delta, len) <= DataLimit(len) - 2 then len
               else DeltaLengthFrom(delta, len + 1)
  {
  }

  function DeltaBytes(delta: int): (s: seq<Byte>)
    ensures 1 <= |s| <= 8
  {
    var len := DeltaLengthFrom(delta, 1);
    FixedSizeBytes(Clamp(Biased(delta, len), 0, DataLimit(len) - 2), len)
  }

  /** `to_be_bytes` of a wide integer, cut to its last `len` bytes. */
  lemma {:induction false} BigEndianSuffix(v: nat, width: nat, len: nat)
    requires len <= width
    ensures BigEndian(v, width)[width - len..] == BigEndian(v, len)
  {
    if len > 0 {
      BigEndianSuffix(v / 256, width - 1, len - 1);
      assert BigEndian(v, width)[width - len..] == BigEndian(v / 256, width - 1)[width - len..] + [v % 256];
    }
  }

  method EncodeId(id: nat, out: seq<Byte>) returns (r: seq<Byte>)
    requires id < 0x1_0000_0000
    ensures r == out + IdBytes(id)
  {
    var len := IdLength(id);
    BigEndianSuffix(id, 4, len);
    r := out + BigEndian(id, 4)[4 - len..];
  }

  /** Lengths no VINT has are brought to the nearest one. */
  function ClampLen(len: nat): (r: nat)
    ensures 1 <= r <= 8 && (1 <= len <= 8 ==> r == len)
  {
    Clamp(len, 1, 8)
  }

  method EncodeSizeFixedLen(value: nat, askedLen: nat, out: seq<Byte>) returns (r: seq<Byte>)
    ensures r == out + FixedSizeBytes(value, ClampLen(askedLen))
  {
    hide BigEndian, DataLimit, ClampLen;
    var len := ClampLen(askedLen);
    var maxAtLen := DataLimit(len) - 2;
    var fitted := if value <= maxAtLen then value else maxAtLen;
    var encoded := DataLimit(len) + fitted;
    BigEndianSuffix(encoded, 8, len);
    r := out + BigEndian(encoded, 8)[8 - len..];
  }

  method EncodeSize(value: nat, out: seq<Byte>) returns (r: seq<Byte>)
    ensures r == out + SizeBytes(value)
  {
    var len := 1;
    while len < 8 && value >= DataLimit(len) - 1
      invariant 1 <= len <= 8
      invariant SizeLengthFrom(value, 1) == SizeLengthFrom(value, len)
    {
      len := len + 1;
    }
    r := EncodeSizeFixedLen(value, len, out);
  }

  method EncodeSignedDelta(delta: int, out: seq<Byte>) returns (r: seq<Byte>)
    ensures r == out + DeltaBytes(delta)
  {
    hide FixedSizeBytes, BigEndian, Biased, DataLimit, Bias, DeltaLengthFrom;
    var len := 1;
    while true
      invariant 1 <= len <= 8
      invariant DeltaLengthFrom(delta, 1) == DeltaLengthFrom(delta, len)
      decreases 8 - len
    {
      var maxAtLen := DataLimit(len) - 2;
      var shifted := Biased(delta, len);
      NextDeltaLength(delta, len);
      if len >= 8 || 0 <= shifted <= maxAtLen {
        r := EncodeSizeFixedLen(Clamp(shifted, 0, maxAtLen), len, out);
        return;
      }
      len := len + 1;
    }
  }

  method EncodeUnknownSize(askedLen: nat, out: seq<Byte>) returns (r: seq<Byte>)
    ensures r == out + UnknownBytes(ClampLen(askedLen))
  {
    var len := ClampLen(askedLen);
    hide DataLimit, Ones, FirstMarker;
    OnesStart(len);
    r := out + [2 * FirstMarker(len) - 1];
    for i := 1 to len
      invariant r == out + Ones(len, i)
    {
      OnesStep(len, i);
      r := r + [0xFF];
    }
    AllOnes(len);
  }

  /** The first `i` bytes of the unknown size. */
  function Ones(len: nat, i: nat): seq<Byte>
    requires 1 <= i <= len <= 8
  {
    BigEndian(2 * (FirstMarker(len) * Pow256(i - 1)) - 1, i)
  }

  lemma OnesStart(len: nat)
    requires 1 <= len <= 8
    ensures 2 * FirstMarker(len) - 1 < 0x100 && Ones(len, 1) == [2 * FirstMarker(len) - 1]
  {
    OneMoreByte(0, 2 * FirstMarker(len) - 1, 0);
    assert BigEndian(0, 0) == [];
  }

  lemma OnesStep(len: nat, i: nat)
    requires 1 <= i < len <= 8
    ensures Ones(len, i + 1) == Ones(len, i) + [0xFF]
  {
    hide FirstMarker, BigEndian;
    var top := FirstMarker(len) * Pow256(i - 1);
    assert FirstMarker(len) * Pow256(i) == 256 * top;
    OneMoreByte(2 * top - 1, 255, i);
  }

  lemma AllOnes(len: nat)
    requires 1 <= len <= 8
    ensures Ones(len, len) == UnknownBytes(len)
  {
    hide FirstMarker, BigEndian, DataLimit, Pow256;
    MarkerPosition(len);
  }

  lemma OneMoreByte(v: nat, last: Byte, len: nat)
    ensures BigEndian(256 * v + last, len + 1) == BigEndian(v, len) + [last]
  {
  }

  // ---- Decoding what was encoded ----

  lemma LeadingDigit(v: nat, p: nat, m: nat)
    requires p > 0
    ensures m * p <= v <==> m <= v / p
  {
    var q := v / p;
    assert q * p <= v < q * p + p;
    if m <= q {
      MulMonotone(m, q, p);
    } else {
      MulMonotone(q + 1, m, p);
    }
  }

  lemma LengthFromMarker(first: Byte, len: nat)
    requires 1 <= len <= 8
    ensures VintLength(first) == Ok(len) <==> FirstMarker(len) <= first < 2 * FirstMarker(len)
  {
  }

  /** A number announces its own length when it lies between the marker and twice the marker. */
  lemma AnnouncesLength(v: nat, len: nat)
    requires 1 <= len <= 8 && v < Pow256(len)
    ensures VintLength(BigEndian(v, len)[0]) == Ok(len) <==> DataLimit(len) <= v < 2 * DataLimit(len)
    ensures FromBigEndian(BigEndian(v, len)) == v
  {
    hide Pow256, BigEndian, FromBigEndian, DataLimit, FirstMarker, VintLength;
    MarkerPosition(len);
    BigEndianFirst(v, len);
    BigEndianRoundTrip(v, len);
    LeadingDigit(v, Pow256(len - 1), FirstMarker(len));
    LeadingDigit(v, Pow256(len - 1), 2 * FirstMarker(len));
    LengthFromMarker(BigEndian(v, len)[0], len);
  }

  lemma FixedSizeDecodes(value: nat, len: nat, tail: seq<Byte>)
    requires 1 <= len <= 8 && value <= DataLimit(len) - 2
    ensures SizeAt(FixedSizeBytes(value, len) + tail) == Ok((VintSize(value, false), len))
  {
    hide DataLimit, BigEndian, FromBigEndian, Pow256, VintLength;
    var s := FixedSizeBytes(value, len);
    MarkerPosition(len);
    AnnouncesLength(DataLimit(len) + value, len);
    assert (s + tail)[..len] == s;
    DivUnique(DataLimit(len) + value, DataLimit(len), 1, value);
  }

  /** `decode_size` undoes `encode_size`, in the fewest bytes that avoid the unknown pattern. */
  lemma {:induction false} SizeRoundTrip(value: nat, tail: seq<Byte>)
    requires value <= MAX_SIZE
    ensures SizeAt(SizeBytes(value) + tail) == Ok((VintSize(value, false), |SizeBytes(value)|))
    ensures forall k | 1 <= k < |SizeBytes(value)| :: value > DataLimit(k) - 2
  {
    FixedSizeDecodes(value, SizeLengthFrom(value, 1), tail);
  }

  /** Beyond the representable range the value read back is the largest one, never "unknown". */
  lemma SizeSaturates(value: nat, tail: seq<Byte>)
    requires value > MAX_SIZE
    ensures |SizeBytes(value)| == 8 && SizeAt(SizeBytes(value) + tail) == Ok((VintSize(MAX_SIZE, false), 8))
  {
    assert SizeLengthFrom(value, 1) == 8 by {
      assert forall k | 1 <= k < 8 :: DataLimit(k) < DataLimit(8);
      if SizeLengthFrom(value, 1) < 8 {
        SizeLengthStops(value, 1);
      }
    }
    assert FixedSizeBytes(value, 8) == FixedSizeBytes(MAX_SIZE, 8);
    FixedSizeDecodes(MAX_SIZE, 8, tail);
  }

  lemma {:induction false} SizeLengthStops(value: nat, len: nat)
    requires 1 <= len <= 8
    ensures SizeLengthFrom(value, len) == 8 || value < DataLimit(SizeLengthFrom(value, len)) - 1
    decreases 8 - len
  {
    if len < 8 && value >= DataLimit(len) - 1 {
      SizeLengthStops(value, len + 1);
    }
  }

  lemma UnknownDecodes(len: nat, tail: seq<Byte>)
    requires 1 <= len <= 8
    ensures SizeAt(UnknownBytes(len) + tail) == Ok((VintSize(DataLimit(len) - 1, true), len))
  {
    hide DataLimit, BigEndian, FromBigEndian, Pow256, VintLength;
    MarkerPosition(len);
    AnnouncesLength(2 * DataLimit(len) - 1, len);
    assert (UnknownBytes(len) + tail)[..len] == UnknownBytes(len);
    DivUnique(2 * DataLimit(len) - 1, DataLimit(len), 1, DataLimit(len) - 1);
  }

  /** Lacing's reading of a signed delta: the VINT's value less the bias of its length. */
  lemma {:induction false} DeltaRoundTrip(delta: int, tail: seq<Byte>)
    requires -DELTA_LIMIT < delta < DELTA_LIMIT
    ensures var r := SizeAt(DeltaBytes(delta) + tail);
            && r.Ok? && r.value.1 == |DeltaBytes(delta)| && !r.value.0.unknown
            && r.value.0.value - Bias(r.value.1) == delta
  {
    hide Biased, DeltaLengthFrom, SizeAt, FixedSizeBytes, Bias, DataLimit;
    var len := DeltaLengthFrom(delta, 1);
    BiasBounds(8);
    BiasBounds(len);
    LastBias();
    FixedSizeDecodes(Biased(delta, len), len, tail);
  }

  /** IDs whose own leading bits announce their length; every ID of the format is one. */
  predicate SelfDelimiting(id: nat)
  {
    0x80 <= id < 0x100 || 0x4000 <= id < 0x8000 || 0x20_0000 <= id < 0x40_0000 || 0x1000_0000 <= id < 0x2000_0000
  }

  /** `decode_id` undoes `encode_id` on exactly the self-delimiting IDs, whatever follows. */
  lemma {:induction false} IdRoundTrip(id: nat, tail: seq<Byte>)
    requires id < 0x1_0000_0000
    ensures SelfDelimiting(id) <==> IdAt(IdBytes(id) + tail) == Ok((id, IdLength(id)))
  {
    var len, s := IdLength(id), IdBytes(id);
    assert (s + tail)[..len] == s;
    assert (s + tail)[0] == s[0];
    MarkerPosition(len);
    AnnouncesLength(id, len);
  }

  // ---- Which error ----

  /** The first byte has its topmost set bit where a VINT of `len` bytes has its marker. */
  predicate Announces(first: Byte, len: nat)
  {
    1 <= len <= 8 && Pow2(8 - len) <= first < 2 * Pow2(8 - len)
  }

  lemma AnnouncedOnce(first: Byte)
    ensures first != 0 ==> VintLength(first).Ok? && Announces(first, VintLength(first).value)
    ensures forall len: nat | Announces(first, len) :: VintLength(first) == Ok(len)
  {
    PowersOfTwo();
  }

  lemma PowersOfTwo()
    ensures Pow2(0) == 1 && Pow2(1) == 2 && Pow2(2) == 4 && Pow2(3) == 8
    ensures Pow2(4) == 16 && Pow2(5) == 32 && Pow2(6) == 64 && Pow2(7) == 128
  {
  }

  /** A size is reserved for a zero first byte, incomplete while shorter than announced, and otherwise read. */
  lemma {:induction false} SizeErrors(buf: seq<Byte>, len: nat)
    ensures buf == [] ==> SizeAt(buf) == Err(Incomplete)
    ensures buf != [] && buf[0] == 0 ==> SizeAt(buf) == Err(ReservedVint)
    ensures buf != [] && Announces(buf[0], len) ==>
              if |buf| < len then SizeAt(buf) == Err(Incomplete) else SizeAt(buf).Ok? && SizeAt(buf).value.1 == len
  {
    hide FromBigEndian, DataLimit, Announces;
    if buf != [] {
      AnnouncedOnce(buf[0]);
    }
  }

  /** IDs end at four bytes: a longer one is unsupported even before all its bytes are there. */
  lemma {:induction false} IdErrors(buf: seq<Byte>, len: nat)
    ensures buf == [] ==> IdAt(buf) == Err(Incomplete)
    ensures buf != [] && buf[0] == 0 ==> IdAt(buf) == Err(ReservedVint)
    ensures buf != [] && Announces(buf[0], len) ==>
              if len > 4 then IdAt(buf) == Err(Unsupported)
              else if |buf| < len then IdAt(buf) == Err(Incomplete)
              else IdAt(buf).Ok? && IdAt(buf).value.1 == len
  {
    hide FromBigEndian, Announces;
    if buf != [] {
      AnnouncedOnce(buf[0]);
    }
  }

  // ---- What the tables stand for ----

  lemma SevenMore(n: nat)
    ensures Pow2(n + 7) == 128 * Pow2(n)
  {
    hide Pow2;
    PowerSteps(n);
    PowerSteps(n + 1);
    PowerSteps(n + 2);
    PowerSteps(n + 3);
    PowerSteps(n + 4);
    PowerSteps(n + 5);
    PowerSteps(n + 6);
  }

  /** Seven data bits a byte, the marker above them, and a bias of just under half the range. */
  lemma {:induction false} TablesArePowers(len: nat)
    requires 1 <= len <= 8
    ensures DataLimit(len) == Pow2(7 * len) && FirstMarker(len) == Pow2(8 - len) && Bias(len) == Pow2(7 * len - 1) - 1
  {
    hide Pow2;
    DataLimitIsPower(len);
    PowersOfTwo();
    PowerSteps(7 * len - 1);
  }

  lemma PowerSteps(n: nat)
    ensures Pow2(n + 1) == 2 * Pow2(n)
  {
  }

  lemma {:induction false} DataLimitIsPower(len: nat)
    requires 1 <= len <= 8
    ensures DataLimit(len) == Pow2(7 * len)
  {
    hide Pow2;
    PowersOfTwo();
    SevenMore(7 * len - 7);
    if len > 1 {
      DataLimitIsPower(len - 1);
    }
  }

  /** A delta takes no more bytes than it needs. */
  lemma {:induction false} DeltaShortest(delta: int, k: nat)
    requires 1 <= k < |DeltaBytes(delta)|
    ensures delta < -(Pow2(7 * k - 1) - 1) || delta > Pow2(7 * k - 1) - 1
  {
    hide Bias, DataLimit, Pow2, Biased, FixedSizeBytes, DeltaLengthFrom;
    TablesArePowers(k);
    assert |DeltaBytes(delta)| == DeltaLengthFrom(delta, 1);
  }

  // ---- Deltas out of range ----

  lemma WideDelta(delta: I64, k: nat)
    requires 1 <= k <= 8 && (delta >= DELTA_LIMIT || delta <= -DELTA_LIMIT)
    ensures delta >= DELTA_LIMIT && delta + Bias(k) < I64_LIMIT ==> Biased(delta, k) > DataLimit(k) - 2
    ensures delta <= -DELTA_LIMIT || delta + Bias(k) >= I64_LIMIT ==> Biased(delta, k) < 0
  {
    hide DataLimit, Bias;
    BiasBounds(k);
    var sum := delta + Bias(k);
    if sum >= I64_LIMIT {
      assert sum % U64_LIMIT == sum;
    }
  }

  lemma {:induction false} WideDeltaLength(delta: I64, len: nat)
    requires 1 <= len <= 8 && (delta >= DELTA_LIMIT || delta <= -DELTA_LIMIT)
    ensures DeltaLengthFrom(delta, len) == 8
    decreases 8 - len
  {
    hide DataLimit, Bias, Biased;
    WideDelta(delta, len);
    if len < 8 {
      WideDeltaLength(delta, len + 1);
    }
  }

  /**
   A delta of 2 to the 55 or more, either way, is cut to the nearest one that eight bytes tell; where the sum with the
   bias passes 64 bits it has wrapped to the other end.
   */
  lemma {:induction false} DeltaSaturates(delta: I64, tail: seq<Byte>)
    requires delta >= 0x80_0000_0000_0000 || delta <= -0x80_0000_0000_0000
    ensures var high := delta > 0 && delta + 0x7F_FFFF_FFFF_FFFF < 0x8000_0000_0000_0000;
            SizeAt(DeltaBytes(delta) + tail) == Ok((VintSize(if high then 0xFF_FFFF_FFFF_FFFE else 0, false), 8))
  {
    hide SizeAt, FixedSizeBytes, Biased, DeltaLengthFrom;
    WideDeltaLength(delta, 1);
    WideDelta(delta, 8);
    FixedSizeDecodes(Clamp(Biased(delta, 8), 0, DataLimit(8) - 2), 8, tail);
  }
}
